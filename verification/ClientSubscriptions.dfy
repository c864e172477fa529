/**
 * The subscription object of the client SDK. Each method does to its fields what the function of
 * `SubscriptionSpec` that its postcondition names does to the value of those fields.
 */
module ClientSubscriptions {
  import opened Wrappers
  import opened Revisions
  import opened SubscriptionSpec

  /** One socket. `connected` holds from a valid hello until the connection closes or drops. */
  class Connection {
    const id: ConnId
    const identityKey: string
    var connected: bool

    constructor (id: ConnId, identityKey: string)
      ensures this.id == id && this.identityKey == identityKey && connected
    {
      this.id := id;
      this.identityKey := identityKey;
      connected := true;
    }
  }

  /** The epoch in view: the one delivered or asked to be replaced, and whether a new one is awaited. */
  datatype EpochView = EpochView(epoch: Option<string>, replacing: Option<string>, resyncPending: bool, awaitingEpoch: bool)

  class ClientSubscription {
    const id: string
    const contract: Contract
    var state: SubscriptionState
    var reason: Option<ErrorCode>
    var terminal: bool
    var attached: Connection?
    var serverKnows: bool
    var subscribeInFlight: bool
    var view: EpochView
    var localFailures: nat
    var unsubscribing: bool
    var progress: Progress
    var backoff: Backoff
    var history: History

    function Data(): SubData
      reads this
    {
      SubData(contract, state, reason, terminal, if attached == null then None else Some(attached.id), serverKnows,
              subscribeInFlight, view.epoch, view.replacing, view.resyncPending, view.awaitingEpoch, localFailures, unsubscribing,
              progress, backoff, history)
    }

    /** A connection's ID names it: no other connection this subscription meets has the same one. */
    predicate Names(connection: Connection)
      reads this
    {
      attached != null && attached.id == connection.id ==> attached == connection
    }

    constructor (id: string, contract: Contract)
      ensures this.id == id && Data() == NewSubscription(contract)
    {
      this.id := id;
      this.contract := contract;
      state, reason, terminal := Idle, None, false;
      attached, serverKnows, subscribeInFlight := null, false, false;
      view := EpochView(None, None, false, true);
      localFailures, unsubscribing := 0, false;
      progress := Progress(1, None, None, []);
      backoff := Backoff(None, multiset{});
      history := History([], [], []);
    }

    // --- called by the client ----------------------------------------------------------

    /** Subscribes on a freshly authenticated connection. */
    method Attach(connection: Connection)
      modifies this
      ensures Data() == old(Data()).Attach(connection.id, connection.connected)
      ensures attached == if old(terminal) then old(attached) else connection
    {
      if terminal {
        return;
      }
      StartOver();
      attached := connection;
      history := history.(attachments := history.attachments + [connection.id]);
      SendSubscribe(connection);
    }

    /** Nothing is known of the gateway's side any more. */
    method StartOver()
      modifies this`state, this`reason, this`serverKnows, this`subscribeInFlight, this`view, this`backoff
      ensures Data() == old(Data()).StartedOver()
    {
      backoff := backoff.Clear();
      serverKnows := false;
      subscribeInFlight := false;
      view := EpochView(None, None, false, true);
      state, reason := Authorizing, None;
    }

    /** The transport was lost; the view is stale until a new synchronization completes. */
    method Detach(why: Option<ErrorCode>)
      modifies this
      ensures Data() == old(Data()).Detach(why) && attached == null
    {
      backoff := backoff.Clear();
      attached := null;
      serverKnows := false;
      subscribeInFlight := false;
      view := view.(awaitingEpoch := true, replacing := None, resyncPending := false);
      if terminal || state == ResyncRequired {
        return;
      }
      SetState(Stale, why);
    }

    /** Ends the subscription, without contacting the server. */
    method Terminate(end: SubscriptionState, why: Option<ErrorCode>)
      requires end == Failed || end == Closed
      modifies this
      ensures Data() == old(Data()).Terminate(end, why)
      ensures attached == if old(terminal) then old(attached) else null
    {
      if terminal {
        return;
      }
      terminal := true;
      backoff := backoff.Clear();
      attached := null;
      state, reason := end, why;
    }

    /** Applies a gateway state frame for the attached connection, ignoring frames of old or replaced epochs. */
    method HandleState(connection: Connection, frame: StateFrame)
      requires Names(connection)
      modifies this
      ensures Data() == old(Data()).HandleState(connection.id, frame)
      ensures attached == old(attached) || attached == null
    {
      if terminal || connection != attached {
        return;
      }
      serverKnows := true;
      if frame.state == Synchronizing {
        OpenEpoch(connection, frame.epoch);
        return;
      }
      var ignored := Ignored(frame);
      if !ignored {
        ApplyState(frame);
      }
    }

    /** The frame is of another epoch, of one that is being replaced, or live before its epoch opened. */
    method Ignored(frame: StateFrame) returns (ignored: bool)
      ensures ignored <==> Data().Ignores(frame)
    {
      if frame.epoch != (if view.epoch.Some? then view.epoch.value else "") {
        return true;
      }
      if view.replacing == Some(frame.epoch) && (frame.state == Live || frame.state == ResyncRequired) {
        return true;
      }
      return frame.state == Live && view.awaitingEpoch;
    }

    /** Takes the state a gateway frame of the current epoch names. */
    method ApplyState(frame: StateFrame)
      requires !terminal && serverKnows && attached != null
      requires frame.state != Synchronizing && !Data().Ignores(frame)
      modifies this
      ensures Data() == old(Data()).HandleState(old(attached).id, frame)
      ensures attached == old(attached) || attached == null
    {
      match frame.state {
        case Failed =>
          serverKnows := false;
          Terminate(Failed, frame.reason);
        case Closed =>
          serverKnows := false;
          Terminate(Closed, frame.reason);
        case ResyncRequired =>
          SetState(ResyncRequired, if frame.reason.Some? then frame.reason else Some(ResyncNeeded));
        case Live =>
          localFailures := 0;
          SetState(Live, None);
        case Stale => SetState(Stale, frame.reason);
        case Authorizing => SetState(Authorizing, frame.reason);
        case _ =>
      }
    }

    method OpenEpoch(connection: Connection, newEpoch: string)
      requires !terminal && serverKnows
      modifies this`state, this`reason, this`view, this`progress, this`history
      ensures Data() == old(Data()).OpenEpoch(connection.id, newEpoch)
    {
      if view.epoch == Some(newEpoch) && !view.awaitingEpoch {
        return;
      }
      view := EpochView(Some(newEpoch), None, false, false);
      progress := progress.(expectedSequence := 1, epochRevision := None);
      history := history.(accepted := history.accepted + [(connection.id, newEpoch)]);
      state, reason := Synchronizing, None;
    }

    /** Validates and delivers a data frame of the current epoch, then sends its receipt. */
    method HandleData(connection: Connection, frame: DataFrame, listenerThrows: bool)
      requires Names(connection)
      modifies this
      ensures Data() == old(Data()).HandleData(connection.id, connection.connected, frame, listenerThrows)
      ensures attached == old(attached) || attached == null
    {
      if terminal || connection != attached {
        return;
      }
      serverKnows := true;
      if view.awaitingEpoch || view.epoch != Some(frame.epoch) {
        if view.epoch == Some(frame.epoch) {
          Send(connection, Receipt(connection.id, frame.epoch, frame.sequence));
        }
        return;
      }
      DeliverData(connection, frame, listenerThrows);
    }

    method DeliverData(connection: Connection, frame: DataFrame, listenerThrows: bool)
      requires attached == connection && !terminal && serverKnows
      modifies this
      ensures Data() == old(Data()).DeliverData(connection.id, connection.connected, frame, listenerThrows)
      ensures attached == connection || attached == null
    {
      var problem := Problem(frame);
      if problem.Some? {
        LocalSyncFailure(problem.value);
        return;
      }
      progress := Advance(frame);
      if listenerThrows {
        ListenerFailed();
        return;
      }
      Send(connection, Receipt(connection.id, frame.epoch, frame.sequence));
    }

    /** The checks a data frame of the current epoch must pass, in order. */
    method Problem(frame: DataFrame) returns (problem: Option<ErrorCode>)
      ensures problem == Data().FrameProblem(frame)
    {
      var event := frame.event;
      if frame.sequence != progress.expectedSequence {
        return Some(InvalidRequest);
      }
      if event.channel != contract.channel || event.channelVersion != contract.channelVersion {
        return Some(InvalidPayload);
      }
      if frame.sequence == 1 {
        if event.kind != Snapshot {
          return Some(InvalidRequest);
        }
        if progress.lastRevision.Some? && CompareRevisions(event.revision, progress.lastRevision.value) < 0 {
          return Some(InvalidPayload);
        }
      } else if event.kind != Update
                || (progress.epochRevision.Some? && CompareRevisions(event.revision, progress.epochRevision.value) <= 0) {
        return Some(InvalidRequest);
      }
      problem := None;
    }

    /** The stream position after the frame is delivered. */
    method Advance(frame: DataFrame) returns (next: Progress)
      ensures next == progress.Delivering(frame)
    {
      var revision := frame.event.revision;
      next := progress.(expectedSequence := progress.expectedSequence + 1, epochRevision := Some(revision));
      if next.lastRevision.None? || CompareRevisions(revision, next.lastRevision.value) > 0 {
        next := next.(lastRevision := Some(revision));
      }
      next := next.(delivered := next.delivered + [Delivery(frame.sequence, frame.event.kind, revision)]);
    }

    // --- public API ----------------------------------------------------------------------

    /** Asks for a fresh snapshot; a request already on its way is joined. */
    method Resynchronize(authRequired: bool)
      modifies this
      ensures Data() == old(Data()).Resynchronize(old(attached) != null && old(attached).connected, authRequired)
      ensures attached == old(attached)
    {
      if terminal || authRequired || view.resyncPending {
        return;
      }
      localFailures := 0;
      RequestFreshSynchronization();
    }

    /** Closes the subscription locally at once, and tells a gateway that may hold it. */
    method UnsubscribeNow()
      modifies this
      ensures Data() == old(Data()).UnsubscribeNow(old(attached) != null && old(attached).connected)
      ensures attached == old(attached) || attached == null
    {
      if unsubscribing {
        return;
      }
      var connection := attached;
      var knows := serverKnows || subscribeInFlight;
      if !terminal {
        Terminate(Closed, None);
      }
      unsubscribing := true;
      if knows && connection != null {
        Send(connection, Unsubscribe(connection.id));
      }
    }

    // --- answers and timers ----------------------------------------------------------------

    method SubscribeSettled(connection: Connection, answer: Answer)
      requires Names(connection)
      modifies this
      ensures Data() == old(Data()).SubscribeSettled(connection.id, answer)
      ensures attached == old(attached) || attached == null
    {
      if connection == attached || attached == null {
        subscribeInFlight := false;
      }
      if connection != attached || terminal || answer == Unanswered {
        return;
      }
      if answer == Acknowledged {
        serverKnows := true;
        return;
      }
      if answer.code == Overloaded {
        CountRefusal(Overloaded, Resubscribe(connection.id));
        return;
      }
      Terminate(Failed, Some(answer.code));
    }

    method ResyncAcknowledged(connection: Connection, asked: Option<string>)
      requires Names(connection)
      modifies this
      ensures Data() == old(Data()).ResyncAcknowledged(connection.id, asked)
      ensures attached == old(attached)
    {
      if connection == attached && view.replacing == asked {
        view := view.(replacing := None);
      }
    }

    method ResyncRefused(connection: Connection, asked: Option<string>, code: ErrorCode)
      requires Names(connection)
      modifies this
      ensures Data() == old(Data()).ResyncRefused(connection.id, connection.connected, asked, code)
      ensures attached == old(attached)
    {
      if connection != attached || terminal {
        return;
      }
      if code == InvalidRequest {
        Attach(connection);
        return;
      }
      if view.replacing != asked || view.epoch != asked {
        return;
      }
      view := view.(replacing := None, resyncPending := false, awaitingEpoch := true);
      CountRefusal(code, Retry.Resynchronize(connection.id));
    }

    /** A backoff timer fires. */
    method RetryFired(retry: Retry)
      requires retry in backoff.pending
      modifies this
      ensures Data() == old(Data()).RetryFired(retry, old(attached) != null && old(attached).connected)
      ensures attached == old(attached)
    {
      backoff := backoff.Fire(retry);
      if attached == null || attached.id != retry.conn || !attached.connected || terminal {
        return;
      }
      match retry {
        case Resubscribe(_) => Attach(attached);
        case Resynchronize(_) => RequestFreshSynchronization();
      }
    }

    /** A data or state listener threw or rejected: the subscription fails. */
    method ListenerFailed()
      modifies this
      ensures Data() == old(Data()).ListenerFailed(old(attached) != null && old(attached).connected)
      ensures attached == old(attached) || attached == null
    {
      if terminal {
        return;
      }
      var connection := attached;
      var knows := serverKnows || subscribeInFlight;
      Terminate(Failed, Some(HandlerFailed));
      if knows && connection != null {
        Send(connection, Unsubscribe(connection.id));
      }
    }

    // --- internals -----------------------------------------------------------------------

    method SendSubscribe(connection: Connection)
      modifies this`history, this`subscribeInFlight
      ensures subscribeInFlight && history == old(history).Send(Subscribe(connection.id), connection.connected)
    {
      subscribeInFlight := true;
      Send(connection, Subscribe(connection.id));
    }

    method Send(connection: Connection, message: Message)
      modifies this`history
      ensures history == old(history).Send(message, connection.connected)
    {
      if connection.connected {
        history := history.(sent := history.sent + [message]);
      }
    }

    method SetState(newState: SubscriptionState, newReason: Option<ErrorCode>)
      modifies this`state, this`reason, this`view
      ensures terminal ==> state == old(state) && reason == old(reason) && view == old(view)
      ensures !terminal ==> state == newState && reason == newReason
      ensures !terminal && newState == ResyncRequired ==> view == old(view).(resyncPending := false)
      ensures newState != ResyncRequired ==> view == old(view)
    {
      if terminal {
        return;
      }
      if newState == ResyncRequired {
        view := view.(resyncPending := false);
      }
      state, reason := newState, newReason;
    }

    method RequestFreshSynchronization()
      modifies this
      ensures Data() == old(Data()).RequestFresh(old(attached) != null && old(attached).connected)
      ensures attached == old(attached)
    {
      var connection := attached;
      if connection == null || !connection.connected {
        return;
      }
      if !serverKnows {
        if state == Authorizing {
          return;
        }
        Attach(connection);
        return;
      }
      if state == Authorizing || state == Synchronizing || view.resyncPending {
        return;
      }
      backoff := backoff.Clear();
      view := view.(replacing := view.epoch, resyncPending := true, awaitingEpoch := true);
      if state != Stale {
        SetState(Authorizing, None);
      }
      Send(connection, Message.Resync(connection.id));
    }

    /** The SDK rejected a frame. Resynchronize, bounded per incident. */
    method LocalSyncFailure(code: ErrorCode)
      requires !terminal && serverKnows
      modifies this
      ensures Data() == old(Data()).LocalSyncFailure(code, old(attached) != null && old(attached).connected)
      ensures attached == old(attached)
    {
      localFailures := localFailures + 1;
      if localFailures >= LOCAL_SYNC_ATTEMPTS {
        GiveUp();
        return;
      }
      SetState(Stale, Some(code));
      RequestFreshSynchronization();
    }

    /** Enough rejected frames: the gateway is told to drop the subscription, which waits for an explicit resync. */
    method GiveUp()
      requires !terminal && serverKnows
      modifies this`state, this`reason, this`serverKnows, this`view, this`history
      ensures Data() == old(Data()).GivenUp(attached != null && attached.connected)
    {
      if serverKnows && attached != null {
        Send(attached, Unsubscribe(attached.id));
      }
      serverKnows := false;
      view := view.(awaitingEpoch := true);
      SetState(ResyncRequired, Some(ResyncNeeded));
    }

    /** A refusal over a limit: retry with backoff, then give up as resync-required. */
    method CountRefusal(code: ErrorCode, retry: Retry)
      requires !terminal
      modifies this
      ensures Data() == old(Data()).Refusal(code, retry)
      ensures attached == old(attached)
    {
      localFailures := localFailures + 1;
      if localFailures >= LOCAL_SYNC_ATTEMPTS {
        SetState(ResyncRequired, Some(code));
        return;
      }
      SetState(Stale, Some(code));
      backoff := backoff.Arm(retry);
    }
  }
}
