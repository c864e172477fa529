/**
 * What holds of a client and all its subscriptions at the end of every event, whatever the
 * application, the timers, the network and the gateway do.
 */
module ClientSafety {
  import opened Wrappers
  import opened SubscriptionSpec
  import SubscriptionSafety
  import opened ClientSpec

  /** Every connection it was ever attached to authenticated as `identityKey`. */
  ghost predicate OneIdentity(s: SubData, identityKey: Option<string>, keys: map<ConnId, string>) {
    forall k :: 0 <= k < |s.history.attachments| ==>
      s.history.attachments[k] in keys && identityKey == Some(keys[s.history.attachments[k]])
  }

  /** A tracked subscription is not over, and is attached to the adopted connection or to none. */
  ghost predicate SubSound(s: SubData, connection: Option<ConnId>, identityKey: Option<string>, keys: map<ConnId, string>) {
    && SubscriptionSafety.Inv(s)
    && !s.terminal
    && (s.attached.Some? ==> s.attached == connection)
    && OneIdentity(s, identityKey, keys)
  }

  ghost predicate SubsSound(c: ClientData) {
    forall id :: id in c.subs ==> SubSound(c.subs[id], c.connection, c.identityKey, c.keys)
  }

  /** A connection is up only while adopted, or between its hello and its opening's continuation. */
  predicate Held(c: ClientData, conn: ConnId) {
    c.connection == Some(conn) || exists k :: 0 <= k < |c.attempts| && c.attempts[k].conn == Some(conn)
  }

  /** `loose` are connections whose opening is being settled right now. */
  ghost predicate NetSound(c: ClientData, loose: set<ConnId>) {
    && (c.connection.Some? ==>
          && c.connection.value in c.up
          && c.connection.value in c.keys
          && c.identityKey == Some(c.keys[c.connection.value]))
    && (forall conn :: conn in c.up ==> conn in c.keys && (conn in loose || Held(c, conn)))
    && (forall k :: 0 <= k < |c.attempts| && c.attempts[k].conn.Some? ==> c.attempts[k].conn.value in c.keys)
    && (c.closed ==> c.connection.None? && c.subs == map[])
  }

  ghost predicate Inv(c: ClientData) {
    NetSound(c, {}) && SubsSound(c)
  }

  // --- one subscription ----------------------------------------------------------------------

  /** Apart from the client attaching it, a subscription only stays, lets go, or re-attaches where it is. */
  ghost predicate StaysPut(s: SubData, s': SubData) {
    && (s'.attached == s.attached || s'.attached.None?)
    && (s'.history.attachments == s.history.attachments
        || (s.attached.Some? && s'.history.attachments == s.history.attachments + [s.attached.value]))
  }

  lemma RequestFreshStays(s: SubData, connected: bool)
    ensures StaysPut(s, s.RequestFresh(connected))
  {
  }

  lemma StateStays(s: SubData, conn: ConnId, frame: StateFrame)
    ensures StaysPut(s, s.HandleState(conn, frame))
  {
  }

  lemma DataStays(s: SubData, conn: ConnId, connected: bool, frame: DataFrame, listenerThrows: bool)
    ensures StaysPut(s, s.HandleData(conn, connected, frame, listenerThrows))
  {
    RequestFreshStays(s.(state := Stale, reason := s.FrameProblem(frame), serverKnows := true, localFailures := s.localFailures + 1), connected);
  }

  lemma ResyncRefusedStays(s: SubData, conn: ConnId, connected: bool, asked: Option<string>, code: ErrorCode)
    ensures StaysPut(s, s.ResyncRefused(conn, connected, asked, code))
  {
  }

  lemma SubscribeStays(s: SubData, conn: ConnId, answer: Answer)
    ensures StaysPut(s, s.SubscribeSettled(conn, answer))
  {
  }

  lemma RetryStays(s: SubData, retry: Retry, connected: bool)
    ensures StaysPut(s, s.RetryFired(retry, connected))
  {
    RequestFreshStays(s.(backoff := s.backoff.Fire(retry)), connected);
  }

  lemma StepStaysPut(s: SubData, e: SubEvent)
    requires !e.Attaching?
    ensures StaysPut(s, SubStep(s, e))
  {
    match e
    case OnData(conn, connected, frame, throws) => DataStays(s, conn, connected, frame, throws);
    case OnState(conn, frame) => StateStays(s, conn, frame);
    case OnResyncRefused(conn, connected, asked, code) => ResyncRefusedStays(s, conn, connected, asked, code);
    case OnSubscribeSettled(conn, answer) => SubscribeStays(s, conn, answer);
    case OnRetry(retry, connected) => RetryStays(s, retry, connected);
    case OnResync(connected, _) => RequestFreshStays(s.(localFailures := 0), connected);
    case _ => EndingStays(s, e);
  }

  lemma EndingStays(s: SubData, e: SubEvent)
    requires e.Detaching? || e.Terminating? || e.OnResyncAcknowledged? || e.OnUnsubscribe? || e.OnListenerFailed?
    ensures StaysPut(s, SubStep(s, e))
  {
  }

  /** Whatever a subscription does by itself, it stays sound until it is over. */
  lemma SubStepSound(c: ClientData, s: SubData, e: SubEvent)
    requires NetSound(c, {}) && SubSound(s, c.connection, c.identityKey, c.keys)
    requires !e.Attaching?
    ensures !SubStep(s, e).terminal ==> SubSound(SubStep(s, e), c.connection, c.identityKey, c.keys)
  {
    SubscriptionSafety.StepInv(s, e);
    StepStaysPut(s, e);
  }

  lemma DetachSound(s: SubData, why: Option<ErrorCode>, connection: Option<ConnId>, connection': Option<ConnId>,
                    identityKey: Option<string>, keys: map<ConnId, string>)
    requires SubSound(s, connection, identityKey, keys)
    ensures SubSound(s.Detach(why), connection', identityKey, keys)
  {
    SubscriptionSafety.StepInv(s, Detaching(why));
    StepStaysPut(s, Detaching(why));
    assert SubStep(s, Detaching(why)) == s.Detach(why);
  }

  lemma AttachSound(s: SubData, conn: ConnId, connection: Option<ConnId>, identityKey: Option<string>, keys: map<ConnId, string>)
    requires SubSound(s, connection, identityKey, keys)
    requires conn in keys && identityKey == Some(keys[conn])
    ensures SubSound(s.Attach(conn, true), Some(conn), identityKey, keys)
  {
    SubscriptionSafety.StepInv(s, Attaching(conn, true));
    assert SubStep(s, Attaching(conn, true)) == s.Attach(conn, true);
  }

  // --- all of them -----------------------------------------------------------------------------

  /** Detached from everything, the subscriptions fit any connection. */
  lemma DetachAllSound(c: ClientData, why: Option<ErrorCode>, c': ClientData)
    requires SubsSound(c)
    requires c'.subs == DetachAll(c.subs, why) && c'.identityKey == c.identityKey && c'.keys == c.keys
    ensures SubsSound(c')
  {
    forall id | id in c'.subs
      ensures SubSound(c'.subs[id], c'.connection, c'.identityKey, c'.keys)
    {
      DetachSound(c.subs[id], why, c.connection, c'.connection, c.identityKey, c.keys);
    }
  }

  /** Connection IDs are met once, so a new one changes no one's identity. */
  lemma KeysGrow(c: ClientData, c': ClientData, conn: ConnId, key: string)
    requires SubsSound(c) && conn !in c.keys
    requires c'.subs == c.subs && c'.connection == c.connection && c'.identityKey == c.identityKey && c'.keys == c.keys[conn := key]
    ensures SubsSound(c')
  {
    forall id | id in c'.subs
      ensures SubSound(c'.subs[id], c'.connection, c'.identityKey, c'.keys)
    {
      assert SubSound(c.subs[id], c.connection, c.identityKey, c.keys);
    }
  }

  lemma SuspendInv(c: ClientData)
    requires NetSound(c, {}) && SubsSound(c)
    ensures Inv(c.Suspend())
  {
    DetachAllSound(c, Some(Unauthenticated), c.Suspend());
    assert forall conn: ConnId :: Held(c, conn) ==> Held(c.Suspend(), conn);
  }

  lemma ScheduleInv(c: ClientData)
    requires Inv(c)
    ensures Inv(c.ScheduleReconnect())
  {
    assert forall conn: ConnId :: Held(c, conn) ==> Held(c.ScheduleReconnect(), conn);
  }

  lemma ConnectInv(c: ClientData, explicit: bool)
    requires Inv(c)
    ensures Inv(c.Connect(explicit))
  {
    var c' := c.Connect(explicit);
    forall conn: ConnId | Held(c, conn)
      ensures Held(c', conn)
    {
      if c.connection != Some(conn) {
        var k :| 0 <= k < |c.attempts| && c.attempts[k].conn == Some(conn);
        assert c'.attempts[k] == c.attempts[k];
      }
    }
  }

  /** The adopted connection is gone: everyone is detached, and the client reconnects or waits. */
  lemma DisconnectInv(c: ClientData, conn: ConnId)
    requires NetSound(c, {conn}) && SubsSound(c) && c.connection == Some(conn)
    ensures Inv(c.(up := c.up - {conn}).HandleDisconnect(conn))
  {
    var why := if c.lastError.None? then None else Some(c.lastError.value.code);
    var dropped := c.(up := c.up - {conn}, connection := None, subs := DetachAll(c.subs, why));
    DetachAllSound(c, why, dropped);
    assert forall other: ConnId :: other != conn && Held(c, other) ==> Held(dropped, other);
    assert Inv(dropped);
    if c.lastError.Some? && c.lastError.value.code == Unauthenticated {
      SuspendInv(dropped);
      var prompt := dropped.(backoffAttempt := 0);
      assert forall other: ConnId :: Held(dropped, other) ==> Held(prompt, other);
      ScheduleInv(prompt);
    } else {
      ScheduleInv(dropped);
    }
  }

  lemma ScheduleKeepsUp(c: ClientData)
    ensures c.ScheduleReconnect().up == c.up && c.Suspend().up == c.up
    ensures c.ScheduleReconnect().connection == c.connection && c.Suspend().connection == c.connection
  {
  }

  /** Losing a connection, adopted or not, settles it. */
  lemma LoseInv(c: ClientData, conn: ConnId)
    requires NetSound(c, {conn}) && SubsSound(c)
    ensures Inv(c.Lose(conn))
  {
    var without := c.(up := c.up - {conn});
    if conn in c.up && c.connection == Some(conn) {
      DisconnectInv(c, conn);
    } else {
      assert forall other: ConnId :: Held(c, other) ==> Held(without, other);
      assert SubsSound(without);
      assert conn in c.up ==> c.Lose(conn) == without;
    }
  }

  lemma ConnectFailedInv(c: ClientData, error: StreamError)
    requires Inv(c)
    ensures Inv(c.ConnectFailed(error))
  {
    var failed := c.(lastError := Some(error));
    assert forall conn: ConnId :: Held(c, conn) ==> Held(failed, conn);
    SuspendInv(failed);
    ScheduleInv(failed);
  }

  /** What adopting changes and what it leaves. */
  lemma AdoptShape(c: ClientData, conn: ConnId, key: string)
    requires !c.closed
    ensures var c' := c.Adopt(conn, key);
      && c'.connection == Some(conn)
      && c'.identityKey == Some(key)
      && c'.up == (if c.connection.Some? && c.connection.value != conn then c.up - {c.connection.value} else c.up)
      && c'.keys == c.keys && c'.attempts == c.attempts && !c'.closed
      && c'.subs == (if c.identityKey.None? || c.identityKey.value == key then AttachAll(c.subs, conn, conn in c'.up) else map[])
  {
    var replaced := c.Replaced(conn);
    var switched := replaced.SwitchedTo(key);
    var marked := switched.MarkedConnected(key);
    assert marked.up == replaced.up && marked.subs == switched.subs;
    assert AttachAll(map[], conn, conn in marked.up) == map[];
  }

  /** Adopting a connection leaves it the only adopted one, with every surviving subscription attached to it. */
  lemma AdoptInv(c: ClientData, conn: ConnId)
    requires NetSound(c, {conn}) && SubsSound(c)
    requires conn in c.up
    ensures Inv(c.Adopt(conn, c.keys[conn]))
  {
    if c.closed {
      LoseInv(c, conn);
    } else {
      AdoptShape(c, conn, c.keys[conn]);
      AdoptedInv(c, conn, c.Adopt(conn, c.keys[conn]));
    }
  }

  lemma AdoptedInv(c: ClientData, conn: ConnId, c': ClientData)
    requires NetSound(c, {conn}) && SubsSound(c) && conn in c.up
    requires c'.connection == Some(conn) && c'.identityKey == Some(c.keys[conn])
    requires c'.up == (if c.connection.Some? && c.connection.value != conn then c.up - {c.connection.value} else c.up)
    requires c'.keys == c.keys && c'.attempts == c.attempts && !c'.closed
    requires c'.subs == (if c.identityKey.None? || c.identityKey.value == c.keys[conn] then AttachAll(c.subs, conn, true) else map[])
    ensures Inv(c')
  {
    forall other | other in c'.up
      ensures other in c'.keys && Held(c', other)
    {
      assert other == conn || Held(c, other);
    }
    forall id | id in c'.subs
      ensures SubSound(c'.subs[id], c'.connection, c'.identityKey, c'.keys)
    {
      var s := c.subs[id];
      assert SubSound(s, c.connection, c.identityKey, c.keys);
      assert OneIdentity(s, c'.identityKey, c.keys);
      AttachSound(s, conn, c.connection, c'.identityKey, c.keys);
    }
  }

  lemma OpenFailedInv(c: ClientData, a: Attempt, error: StreamError)
    requires Inv(c)
    ensures Inv(c.OpenFailed(a, error))
  {
    var settled := c.(connecting := false);
    assert forall conn: ConnId :: Held(c, conn) ==> Held(settled, conn);
    ConnectFailedInv(settled, error);
  }

  /** The invariant speaks of connections and subscriptions only. */
  lemma SoundOfSame(c: ClientData, c': ClientData, loose: set<ConnId>)
    requires NetSound(c, loose) && SubsSound(c)
    requires c'.connection == c.connection && c'.identityKey == c.identityKey && c'.up == c.up && c'.keys == c.keys
    requires c'.attempts == c.attempts && c'.closed == c.closed && c'.subs == c.subs
    ensures NetSound(c', loose) && SubsSound(c')
  {
    assert forall other: ConnId :: Held(c, other) ==> Held(c', other);
  }

  lemma OpenedAdopts(c: ClientData, a: Attempt, conn: ConnId)
    requires NetSound(c, {conn}) && SubsSound(c)
    requires conn in c.up && a.generation == c.generation
    requires a.kind == ForRefresh ==> !c.closed && !c.suspended
    ensures Inv(c.Opened(a, conn, c.keys[conn]))
  {
    SoundOfSame(c, c.Settled(a.kind), {conn});
    AdoptInv(c.Settled(a.kind), conn);
  }

  lemma OpenedInv(c: ClientData, a: Attempt, conn: ConnId)
    requires NetSound(c, {conn}) && SubsSound(c)
    requires conn in c.keys
    ensures Inv(c.Opened(a, conn, c.keys[conn]))
  {
    if conn !in c.up {
      assert NetSound(c, {});
      OpenFailedInv(c, a, StreamError(SourceUnavailable, true));
    } else if a.generation != c.generation || (a.kind == ForRefresh && (c.closed || c.suspended)) {
      LoseInv(c, conn);
    } else {
      OpenedAdopts(c, a, conn);
    }
  }

  lemma RegisterInv(c: ClientData, id: string, contract: Contract)
    requires Inv(c) && id !in c.subs
    ensures Inv(c.Register(id, NewSubscription(contract)))
  {
    var s := NewSubscription(contract);
    if !c.closed {
      var added := c.(subs := c.subs[id := s]);
      SubscriptionSafety.NewInv(contract);
      assert SubSound(s, c.connection, c.identityKey, c.keys);
      assert forall conn: ConnId :: Held(c, conn) ==> Held(added, conn);
      AdmitInv(added, id);
    }
  }

  lemma AdmitInv(c: ClientData, id: string)
    requires Inv(c) && id in c.subs && !c.closed
    ensures Inv(c.Admit(id))
  {
    var s := c.subs[id];
    var c' := c.Admit(id);
    if c.suspended {
      assert forall conn: ConnId :: Held(c, conn) ==> Held(c', conn);
      DetachSound(s, Some(Unauthenticated), c.connection, c.connection, c.identityKey, c.keys);
    } else if c.connection.Some? {
      assert forall conn: ConnId :: Held(c, conn) ==> Held(c', conn);
      AttachSound(s, c.connection.value, c.connection, c.identityKey, c.keys);
    } else {
      ConnectInv(c, false);
    }
  }

  lemma ReconnectInv(c: ClientData)
    requires Inv(c)
    ensures Inv(c.Reconnect())
  {
    if !c.closed {
      var reset := c.ResetBackoff();
      SoundOfSame(c, reset, {});
      var dropped := reset.Dropped();
      if c.connection.Some? {
        DetachAllSound(reset, None, dropped);
      }
      assert forall conn :: conn in dropped.up && Held(reset, conn) ==> Held(dropped, conn);
      ConnectInv(dropped, true);
    }
  }

  lemma CloseInv(c: ClientData)
    requires Inv(c)
    ensures Inv(c.Close())
  {
    assert forall conn :: conn in c.Close().up && Held(c, conn) ==> Held(c.Close(), conn);
  }

  lemma TimerInv(c: ClientData)
    requires Inv(c)
    ensures Inv(c.ReconnectTimerFired())
  {
    var stopped := c.(reconnectTimer := false);
    assert forall conn: ConnId :: Held(c, conn) ==> Held(stopped, conn);
    ConnectInv(stopped, false);
    var idle := stopped.(state := ClientIdle);
    assert forall conn: ConnId :: Held(c, conn) ==> Held(idle, conn);
  }

  lemma RefreshInv(c: ClientData)
    requires Inv(c)
    ensures Inv(c.Refresh())
  {
    var c' := c.Refresh();
    forall conn: ConnId | Held(c, conn)
      ensures Held(c', conn)
    {
      if c.connection != Some(conn) {
        var k :| 0 <= k < |c.attempts| && c.attempts[k].conn == Some(conn);
        assert c'.attempts[k] == c.attempts[k];
      }
    }
  }

  lemma HelloInv(c: ClientData, at: nat, conn: ConnId, key: string)
    requires Inv(c)
    ensures Inv(ConnectionStep(c, Hello(at, conn, key)))
  {
    if at < |c.attempts| && c.attempts[at].conn.None? && conn !in c.keys {
      var c' := ConnectionStep(c, Hello(at, conn, key));
      KeysGrow(c, c', conn, key);
      forall other | other in c'.up
        ensures other in c'.keys && Held(c', other)
      {
        if other == conn {
          assert c'.attempts[at].conn == Some(conn);
        } else if c.connection != Some(other) {
          var k :| 0 <= k < |c.attempts| && c.attempts[k].conn == Some(other);
          assert c'.attempts[k] == c.attempts[k];
        }
      }
    }
  }

  /** Taking an opening out of flight loosens its connection, and no other. */
  lemma TakeOut(c: ClientData, at: nat)
    requires Inv(c) && at < |c.attempts|
    ensures var taken := c.(attempts := Without(c.attempts, at));
      SubsSound(taken) && NetSound(taken, if c.attempts[at].conn.Some? then {c.attempts[at].conn.value} else {})
  {
    var taken := c.(attempts := Without(c.attempts, at));
    forall conn: ConnId | Held(c, conn) && c.attempts[at].conn != Some(conn)
      ensures Held(taken, conn)
    {
      if c.connection != Some(conn) {
        var k :| 0 <= k < |c.attempts| && c.attempts[k].conn == Some(conn);
        assert taken.attempts[if k < at then k else k - 1] == c.attempts[k];
      }
    }
  }

  lemma FailingInv(c: ClientData, at: nat, error: StreamError)
    requires Inv(c)
    ensures Inv(ConnectionStep(c, Failing(at, error)))
  {
    if at < |c.attempts| && c.attempts[at].conn.None? {
      TakeOut(c, at);
      OpenFailedInv(c.(attempts := Without(c.attempts, at)), c.attempts[at], error);
    }
  }

  lemma ResumingInv(c: ClientData, at: nat)
    requires Inv(c)
    ensures Inv(ConnectionStep(c, Resuming(at)))
  {
    if at < |c.attempts| && c.attempts[at].conn.Some? && c.attempts[at].conn.value in c.keys {
      TakeOut(c, at);
      OpenedInv(c.(attempts := Without(c.attempts, at)), c.attempts[at], c.attempts[at].conn.value);
    }
  }

  lemma ConnectionStepInv(c: ClientData, e: ClientEvent)
    requires Inv(c)
    ensures Inv(ConnectionStep(c, e))
  {
    match e
    case Registering(id, contract) =>
      if id !in c.subs {
        RegisterInv(c, id, contract);
      }
    case CallReconnect => ReconnectInv(c);
    case CallClose => CloseInv(c);
    case ReconnectTimer => TimerInv(c);
    case RefreshTimer => RefreshInv(c);
    case Hello(at, conn, key) => HelloInv(c, at, conn, key);
    case Failing(at, error) => FailingInv(c, at, error);
    case Resuming(at) => ResumingInv(c, at);
    case Dropping(conn) => LoseInv(c, conn);
    case ConnectionError(conn, error) => ErrorInv(c, error);
    case _ =>
  }

  lemma ErrorInv(c: ClientData, error: StreamError)
    requires Inv(c)
    ensures Inv(c.(lastError := Some(error)))
  {
    assert forall other: ConnId :: Held(c, other) ==> Held(c.(lastError := Some(error)), other);
  }

  /** The event a subscription sees when one arrives for it at the client. */
  function SubEventOf(c: ClientData, e: ClientEvent): SubEvent
    requires OfSubscription(e) && e.id in c.subs
  {
    var up := c.ConnectedFor(c.subs[e.id]);
    match e
    case StateArrives(_, conn, frame) => OnState(conn, frame)
    case DataArrives(_, conn, frame, throws) => OnData(conn, true, frame, throws)
    case SubscribeAnswered(_, conn, answer) => OnSubscribeSettled(conn, answer)
    case ControlTimesOut(_, conn) => OnSubscribeSettled(conn, Unanswered)
    case ResyncGranted(_, conn, asked) => OnResyncAcknowledged(conn, asked)
    case ResyncDenied(_, conn, asked, code) => OnResyncRefused(conn, conn in c.up, asked, code)
    case Retrying(_, retry) => OnRetry(retry, up)
    case CallResync(_) => OnResync(up, c.suspended)
    case CallUnsubscribe(_) => OnUnsubscribe(up)
    case ListenerThrows(_) => OnListenerFailed(up)
    case _ => OnListenerFailed(up)
  }

  lemma OnSubInv(c: ClientData, id: string, e: SubEvent)
    requires Inv(c) && id in c.subs && !e.Attaching?
    ensures Inv(c.OnSub(id, SubStep(c.subs[id], e)))
  {
    var c' := c.OnSub(id, SubStep(c.subs[id], e));
    SubStepSound(c, c.subs[id], e);
    assert forall conn: ConnId :: Held(c, conn) ==> Held(c', conn);
  }

  lemma SubscriptionStepInv(c: ClientData, e: ClientEvent)
    requires Inv(c) && OfSubscription(e) && e.id in c.subs
    ensures Inv(SubscriptionStep(c, e.id, e))
  {
    if e.ControlTimesOut? {
      LoseInv(c, e.conn);
    } else {
      OnSubInv(c, e.id, SubEventOf(c, e));
      SubscriptionStepShape(c, e);
    }
  }

  lemma SubscriptionStepShape(c: ClientData, e: ClientEvent)
    requires OfSubscription(e) && e.id in c.subs && !e.ControlTimesOut?
    ensures SubscriptionStep(c, e.id, e) in {c, c.OnSub(e.id, SubStep(c.subs[e.id], SubEventOf(c, e)))}
  {
    var s := c.subs[e.id];
    match e
    case StateArrives(_, conn, frame) => assert SubStep(s, SubEventOf(c, e)) == s.HandleState(conn, frame);
    case DataArrives(_, conn, frame, throws) => assert SubStep(s, SubEventOf(c, e)) == s.HandleData(conn, true, frame, throws);
    case SubscribeAnswered(_, conn, answer) => assert SubStep(s, SubEventOf(c, e)) == s.SubscribeSettled(conn, answer);
    case ResyncGranted(_, conn, asked) => assert SubStep(s, SubEventOf(c, e)) == s.ResyncAcknowledged(conn, asked);
    case ResyncDenied(_, conn, asked, code) => assert SubStep(s, SubEventOf(c, e)) == s.ResyncRefused(conn, conn in c.up, asked, code);
    case Retrying(_, retry) => assert SubStep(s, SubEventOf(c, e)) == s.RetryFired(retry, c.ConnectedFor(s));
    case CallResync(_) => assert SubStep(s, SubEventOf(c, e)) == s.Resynchronize(c.ConnectedFor(s), c.suspended);
    case CallUnsubscribe(_) => assert SubStep(s, SubEventOf(c, e)) == s.UnsubscribeNow(c.ConnectedFor(s));
    case ListenerThrows(_) => assert SubStep(s, SubEventOf(c, e)) == s.ListenerFailed(c.ConnectedFor(s));
    case _ =>
  }

  lemma StepInv(c: ClientData, e: ClientEvent)
    requires Inv(c)
    ensures Inv(ClientStep(c, e))
  {
    if OfSubscription(e) {
      if e.id in c.subs {
        SubscriptionStepInv(c, e);
      }
    } else {
      ConnectionStepInv(c, e);
    }
  }

  lemma {:induction false} RunInv(c: ClientData, events: seq<ClientEvent>)
    requires Inv(c)
    ensures Inv(ClientRun(c, events))
    decreases |events|
  {
    if events != [] {
      StepInv(c, events[0]);
      RunInv(ClientStep(c, events[0]), events[1..]);
    }
  }

  // --- the theorems ------------------------------------------------------------------------------

  /**
   * After any run, a subscription that says it is live is attached to the adopted connection, that
   * connection is up, the last synchronizing frame it accepted was for its epoch on that connection,
   * and no replacement of the epoch is outstanding.
   */
  lemma LiveIsSynchronized(events: seq<ClientEvent>, id: string)
    requires id in ClientRun(InitialClient, events).subs
    requires ClientRun(InitialClient, events).subs[id].state == Live
    ensures var c := ClientRun(InitialClient, events);
      var s := c.subs[id];
      && s.attached.Some? && s.attached == c.connection && c.connection.value in c.up
      && |s.history.accepted| > 0
      && Some(s.history.accepted[|s.history.accepted| - 1].0) == s.attached
      && Some(s.history.accepted[|s.history.accepted| - 1].1) == s.epoch
      && !s.awaitingEpoch && s.replacing.None? && !s.resyncPending
  {
    RunInv(InitialClient, events);
    assert SubSound(ClientRun(InitialClient, events).subs[id], ClientRun(InitialClient, events).connection,
                    ClientRun(InitialClient, events).identityKey, ClientRun(InitialClient, events).keys);
  }

  /** No subscription is ever attached to connections that authenticated as two different identities. */
  lemma NeverTwoIdentities(events: seq<ClientEvent>, id: string, i: nat, j: nat)
    requires id in ClientRun(InitialClient, events).subs
    requires i < |ClientRun(InitialClient, events).subs[id].history.attachments|
    requires j < |ClientRun(InitialClient, events).subs[id].history.attachments|
    ensures var c := ClientRun(InitialClient, events);
      var attachments := c.subs[id].history.attachments;
      attachments[i] in c.keys && attachments[j] in c.keys && c.keys[attachments[i]] == c.keys[attachments[j]]
  {
    RunInv(InitialClient, events);
    var c := ClientRun(InitialClient, events);
    assert SubSound(c.subs[id], c.connection, c.identityKey, c.keys);
  }

  /** Once its continuation has run, a connection is the adopted one or closed: superseded openings leave nothing behind. */
  lemma SettledByItsStep(events: seq<ClientEvent>, at: nat)
    requires at < |ClientRun(InitialClient, events).attempts|
    requires ClientRun(InitialClient, events).attempts[at].conn.Some?
    ensures var c := ClientRun(InitialClient, events);
      var c' := ClientStep(c, Resuming(at));
      var conn := c.attempts[at].conn.value;
      conn !in c'.up || c'.connection == Some(conn)
  {
    var c := ClientRun(InitialClient, events);
    assert c.attempts[at].conn.value in c.keys by { RunInv(InitialClient, events); }
    OpenedSettles(c.(attempts := Without(c.attempts, at)), c.attempts[at], c.attempts[at].conn.value);
  }

  lemma OpenedSettles(c: ClientData, a: Attempt, conn: ConnId)
    requires conn in c.keys
    ensures var c' := c.Opened(a, conn, c.keys[conn]);
      conn !in c'.up || c'.connection == Some(conn)
  {
    if conn !in c.up {
      OpenFailedSettles(c, a, conn);
    } else if a.generation != c.generation || (a.kind == ForRefresh && (c.closed || c.suspended)) {
      LoseSettles(c, conn);
    } else {
      AdoptSettles(c.Settled(a.kind), conn, c.keys[conn]);
    }
  }

  lemma LoseSettles(c: ClientData, conn: ConnId)
    ensures conn !in c.Lose(conn).up
  {
    if conn in c.up && c.connection == Some(conn) {
      var why := if c.lastError.None? then None else Some(c.lastError.value.code);
      var dropped := c.(up := c.up - {conn}, connection := None, subs := DetachAll(c.subs, why));
      ScheduleKeepsUp(dropped);
      ScheduleKeepsUp(dropped.(backoffAttempt := 0));
    }
  }

  lemma AdoptSettles(c: ClientData, conn: ConnId, key: string)
    ensures conn !in c.Adopt(conn, key).up || c.Adopt(conn, key).connection == Some(conn)
  {
    if c.closed {
      LoseSettles(c, conn);
    } else {
      AdoptShape(c, conn, key);
    }
  }

  lemma OpenFailedSettles(c: ClientData, a: Attempt, conn: ConnId)
    requires conn !in c.up
    ensures conn !in c.OpenFailed(a, StreamError(SourceUnavailable, true)).up
  {
    ScheduleKeepsUp(c.(connecting := false, lastError := Some(StreamError(SourceUnavailable, true))));
  }

  /** Two connections up at once: all but the adopted one are between their hello and their continuation. */
  lemma AtMostOneAdopted(events: seq<ClientEvent>, conn: ConnId)
    requires conn in ClientRun(InitialClient, events).up
    ensures var c := ClientRun(InitialClient, events);
      c.connection == Some(conn) || exists k :: 0 <= k < |c.attempts| && c.attempts[k].conn == Some(conn)
  {
    RunInv(InitialClient, events);
    assert Held(ClientRun(InitialClient, events), conn);
  }
}
