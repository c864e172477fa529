/**
 * One client subscription as a value: what each call the client makes, each frame, answer and timer
 * does to it. `ClientSubscriptions` runs the same calls on an object.
 */
module SubscriptionSpec {
  import opened Wrappers
  import opened Revisions

  type ConnId = nat

  datatype SubscriptionState = Idle | Authorizing | Synchronizing | Live | Stale | ResyncRequired | Failed | Closed

  datatype ErrorCode =
    | Unauthenticated | Forbidden | InvalidRequest | InvalidPayload | UnsupportedCapability
    | Overloaded | SourceUnavailable | ResyncNeeded | HandlerFailed | TimedOut | Cancelled | ClientClosed | Internal

  /** A gateway state frame of this subscription. */
  datatype StateFrame = StateFrame(epoch: string, state: SubscriptionState, reason: Option<ErrorCode>)

  datatype EventKind = Snapshot | Update

  datatype StreamEvent = StreamEvent(channel: string, channelVersion: int, kind: EventKind, revision: Revision)

  datatype DataFrame = DataFrame(epoch: string, sequence: nat, event: StreamEvent)

  /** The backoff timer's callback: subscribe again, or ask for a fresh synchronization again. */
  datatype Retry = Resubscribe(conn: ConnId) | Resynchronize(conn: ConnId)

  /** How a subscribe request settles: acknowledged, refused, or never answered. */
  datatype Answer = Acknowledged | Refused(code: ErrorCode) | Unanswered

  datatype Message =
    | Subscribe(conn: ConnId)
    | Resync(conn: ConnId)
    | Unsubscribe(conn: ConnId)
    | Receipt(conn: ConnId, epoch: string, sequence: nat)

  /** An event given to the data listeners. */
  datatype Delivery = Delivery(sequence: nat, kind: EventKind, revision: Revision)

  /** Where the delivered stream stands, and what was delivered. */
  datatype Progress = Progress(
    expectedSequence: nat,
    epochRevision: Option<Revision>,
    lastRevision: Option<Revision>,
    delivered: seq<Delivery>)
  {
    /** A new epoch starts over at its snapshot. */
    function NewEpoch(): Progress {
      this.(expectedSequence := 1, epochRevision := None)
    }

    function Delivering(frame: DataFrame): Progress {
      var revision := frame.event.revision;
      Progress(
        expectedSequence + 1,
        Some(revision),
        if lastRevision.None? || CompareRevisions(revision, lastRevision.value) > 0 then Some(revision) else lastRevision,
        delivered + [Delivery(frame.sequence, frame.event.kind, revision)])
    }
  }

  /** The pending backoff timers, and the handle of the last one armed. */
  datatype Backoff = Backoff(handle: Option<Retry>, pending: multiset<Retry>)
  {
    function Clear(): Backoff {
      if handle.None? then this else Backoff(None, pending - multiset{handle.value})
    }

    /** Arming overwrites the handle of a timer still pending; that timer stays pending. */
    function Arm(retry: Retry): Backoff {
      Backoff(Some(retry), pending + multiset{retry})
    }

    function Fire(retry: Retry): Backoff {
      Backoff(None, pending - multiset{retry})
    }
  }

  /** Connections attached to, synchronizing frames accepted, messages sent. */
  datatype History = History(attachments: seq<ConnId>, accepted: seq<(ConnId, string)>, sent: seq<Message>)
  {
    function Send(message: Message, connected: bool): History {
      if connected then this.(sent := sent + [message]) else this
    }
  }

  /** SDK-detected synchronization failures tolerated per incident before resync-required. */
  const LOCAL_SYNC_ATTEMPTS: nat := 3

  /** The channel contract the subscription was made for. */
  datatype Contract = Contract(channel: string, channelVersion: int)

  datatype SubData = SubData(
    contract: Contract,
    state: SubscriptionState,
    reason: Option<ErrorCode>,
    terminal: bool,
    attached: Option<ConnId>,
    serverKnows: bool,
    subscribeInFlight: bool,
    epoch: Option<string>,
    replacing: Option<string>,
    resyncPending: bool,
    awaitingEpoch: bool,
    localFailures: nat,
    unsubscribing: bool,
    progress: Progress,
    backoff: Backoff,
    history: History)
  {
    function Attach(conn: ConnId, connected: bool): SubData {
      if terminal then this
      else
        StartedOver().(
          attached := Some(conn),
          subscribeInFlight := true,
          history := history.(attachments := history.attachments + [conn]).Send(Subscribe(conn), connected))
    }

    /** Nothing is known of the gateway's side any more. */
    function StartedOver(): SubData {
      this.(
        state := Authorizing,
        reason := None,
        serverKnows := false,
        subscribeInFlight := false,
        epoch := None,
        replacing := None,
        resyncPending := false,
        awaitingEpoch := true,
        backoff := backoff.Clear())
    }

    function Detach(why: Option<ErrorCode>): SubData {
      var staysPut := terminal || state == ResyncRequired;
      this.(
        state := if staysPut then state else Stale,
        reason := if staysPut then reason else why,
        attached := None,
        serverKnows := false,
        subscribeInFlight := false,
        replacing := None,
        resyncPending := false,
        awaitingEpoch := true,
        backoff := backoff.Clear())
    }

    function Terminate(end: SubscriptionState, why: Option<ErrorCode>): SubData {
      if terminal then this
      else this.(state := end, reason := why, terminal := true, attached := None, backoff := backoff.Clear())
    }

    /** A synchronizing frame opens its epoch, unless it repeats the one already open. */
    function OpenEpoch(conn: ConnId, newEpoch: string): SubData {
      if Some(newEpoch) == epoch && !awaitingEpoch then this.(serverKnows := true)
      else
        this.(
          state := Synchronizing,
          reason := None,
          serverKnows := true,
          epoch := Some(newEpoch),
          replacing := None,
          resyncPending := false,
          awaitingEpoch := false,
          progress := progress.NewEpoch(),
          history := history.(accepted := history.accepted + [(conn, newEpoch)]))
    }

    /** The frame is of an epoch this subscription is not in, or of one it asked to replace, or early. */
    predicate Ignores(frame: StateFrame) {
      || frame.epoch != (if epoch.Some? then epoch.value else "")
      || (replacing == Some(frame.epoch) && (frame.state == Live || frame.state == ResyncRequired))
      || (frame.state == Live && awaitingEpoch)
    }

    function HandleState(conn: ConnId, frame: StateFrame): SubData {
      if terminal || attached != Some(conn) then this
      else if frame.state == Synchronizing then OpenEpoch(conn, frame.epoch)
      else if Ignores(frame) then this.(serverKnows := true)
      else
        match frame.state
        case Failed => Terminate(Failed, frame.reason).(serverKnows := false)
        case Closed => Terminate(Closed, frame.reason).(serverKnows := false)
        case ResyncRequired =>
          this.(state := ResyncRequired, reason := if frame.reason.Some? then frame.reason else Some(ResyncNeeded),
                serverKnows := true, resyncPending := false)
        case Live => this.(state := Live, reason := None, serverKnows := true, localFailures := 0)
        case Stale => this.(state := Stale, reason := frame.reason, serverKnows := true)
        case Authorizing => this.(state := Authorizing, reason := frame.reason, serverKnows := true)
        case _ => this.(serverKnows := true)
    }

    /** Why a frame of the current epoch is not the next one, if it is not. */
    function FrameProblem(frame: DataFrame): Option<ErrorCode> {
      var event := frame.event;
      if frame.sequence != progress.expectedSequence then Some(InvalidRequest)
      else if event.channel != contract.channel || event.channelVersion != contract.channelVersion then Some(InvalidPayload)
      else if frame.sequence == 1 then
        if event.kind != Snapshot then Some(InvalidRequest)
        else if progress.lastRevision.Some? && CompareRevisions(event.revision, progress.lastRevision.value) < 0
        then Some(InvalidPayload)
        else None
      else if event.kind != Update
              || (progress.epochRevision.Some? && CompareRevisions(event.revision, progress.epochRevision.value) <= 0)
      then Some(InvalidRequest)
      else None
    }

    /** The frame belongs to the epoch this subscription is delivering. */
    predicate Delivers(conn: ConnId, frame: DataFrame) {
      !terminal && attached == Some(conn) && !awaitingEpoch && Some(frame.epoch) == epoch
    }

    function HandleData(conn: ConnId, connected: bool, frame: DataFrame, listenerThrows: bool): SubData {
      var receipt := Receipt(conn, frame.epoch, frame.sequence);
      if terminal || attached != Some(conn) then this
      else if !Delivers(conn, frame) then
        this.(serverKnows := true, history := if Some(frame.epoch) == epoch then history.Send(receipt, connected) else history)
      else this.(serverKnows := true).DeliverData(conn, connected, frame, listenerThrows)
    }

    /** A frame of the epoch being delivered: rejected, or given to the listeners and acknowledged by its receipt. */
    function DeliverData(conn: ConnId, connected: bool, frame: DataFrame, listenerThrows: bool): SubData {
      match FrameProblem(frame)
      case Some(code) => LocalSyncFailure(code, connected)
      case None =>
        var delivered := this.(progress := progress.Delivering(frame));
        if listenerThrows then delivered.ListenerFailed(connected)
        else delivered.(history := history.Send(Receipt(conn, frame.epoch, frame.sequence), connected))
    }

    /** A rejected frame, which also proves the gateway knows the subscription: ask again, or give up at the third. */
    function LocalSyncFailure(code: ErrorCode, connected: bool): SubData {
      if localFailures + 1 >= LOCAL_SYNC_ATTEMPTS then this.(localFailures := localFailures + 1).GivenUp(connected)
      else
        this.(state := Stale, reason := Some(code), serverKnows := true, localFailures := localFailures + 1)
        .RequestFresh(connected)
    }

    function GivenUp(connected: bool): SubData {
      this.(
        state := ResyncRequired,
        reason := Some(ResyncNeeded),
        serverKnows := false,
        resyncPending := false,
        awaitingEpoch := true,
        history := if attached.Some? then history.Send(Unsubscribe(attached.value), connected) else history)
    }

    function RequestFresh(connected: bool): SubData {
      if attached.None? || !connected then this
      else if !serverKnows then
        if state == Authorizing then this else Attach(attached.value, connected)
      else if state == Authorizing || state == Synchronizing || resyncPending then this
      else
        this.(
          state := if state != Stale && !terminal then Authorizing else state,
          reason := if state != Stale && !terminal then None else reason,
          replacing := epoch,
          resyncPending := true,
          awaitingEpoch := true,
          backoff := backoff.Clear(),
          history := history.Send(Message.Resync(attached.value), connected))
    }

    /** resync(): joins a request on its way, otherwise starts over with the failure count cleared. */
    function Resynchronize(connected: bool, authRequired: bool): SubData {
      if terminal || authRequired || resyncPending then this
      else this.(localFailures := 0).RequestFresh(connected)
    }

    function SubscribeSettled(conn: ConnId, answer: Answer): SubData {
      if attached != Some(conn) || terminal then
        if attached.None? || attached == Some(conn) then this.(subscribeInFlight := false) else this
      else
        match answer
        case Unanswered => this.(subscribeInFlight := false)
        case Acknowledged => this.(subscribeInFlight := false, serverKnows := true)
        case Refused(code) =>
          if code == Overloaded then this.(subscribeInFlight := false).Refusal(code, Resubscribe(conn))
          else Terminate(Failed, Some(code)).(subscribeInFlight := false)
    }

    /** A counted refusal: wait and retry, or give up as resync-required at the third. */
    function Refusal(code: ErrorCode, retry: Retry): SubData {
      if localFailures + 1 >= LOCAL_SYNC_ATTEMPTS then
        this.(state := ResyncRequired, reason := Some(code), resyncPending := false, localFailures := localFailures + 1)
      else
        this.(state := Stale, reason := Some(code), localFailures := localFailures + 1, backoff := backoff.Arm(retry))
    }

    /** The acknowledgment of a resync request, read in order with the frames. `asked` is the epoch it was to replace. */
    function ResyncAcknowledged(conn: ConnId, asked: Option<string>): SubData {
      if attached == Some(conn) && replacing == asked then this.(replacing := None) else this
    }

    function ResyncRefused(conn: ConnId, connected: bool, asked: Option<string>, code: ErrorCode): SubData {
      if attached != Some(conn) || terminal then this
      else if code == InvalidRequest then Attach(conn, connected)
      else if replacing != asked || epoch != asked then this
      else
        this.(replacing := None, resyncPending := false, awaitingEpoch := true)
        .Refusal(code, Retry.Resynchronize(conn))
    }

    function RetryFired(retry: Retry, connected: bool): SubData {
      if retry !in backoff.pending then this
      else
        var fired := this.(backoff := backoff.Fire(retry));
        if attached != Some(retry.conn) || !connected || terminal then fired
        else
          match retry
          case Resubscribe(conn) => fired.Attach(conn, connected)
          case Resynchronize(_) => fired.RequestFresh(connected)
    }

    /** The history once the gateway, if it may hold the subscription, is told it is over. */
    function Farewell(connected: bool): History {
      if (serverKnows || subscribeInFlight) && attached.Some? then history.Send(Unsubscribe(attached.value), connected) else history
    }

    function UnsubscribeNow(connected: bool): SubData {
      if unsubscribing then this
      else Terminate(Closed, None).(unsubscribing := true, history := Farewell(connected))
    }

    function ListenerFailed(connected: bool): SubData {
      if terminal then this
      else Terminate(Failed, Some(HandlerFailed)).(history := Farewell(connected))
    }
  }

  function NewSubscription(contract: Contract): SubData {
    SubData(contract, Idle, None, false, None, false, false, None, None, false, true, 0, false,
            Progress(1, None, None, []), Backoff(None, multiset{}), History([], [], []))
  }

  // --- everything that can happen to a subscription -----------------------------------------

  /** `connected` says whether the attached connection is still up. The gateway may send any frame and any answer. */
  datatype SubEvent =
    | Attaching(conn: ConnId, connected: bool)
    | Detaching(why: Option<ErrorCode>)
    | Terminating(end: SubscriptionState, why: Option<ErrorCode>)
    | OnState(conn: ConnId, stateFrame: StateFrame)
    | OnData(conn: ConnId, connected: bool, dataFrame: DataFrame, listenerThrows: bool)
    | OnSubscribeSettled(conn: ConnId, answer: Answer)
    | OnResyncAcknowledged(conn: ConnId, asked: Option<string>)
    | OnResyncRefused(conn: ConnId, connected: bool, asked: Option<string>, code: ErrorCode)
    | OnRetry(retry: Retry, connected: bool)
    | OnResync(connected: bool, authRequired: bool)
    | OnUnsubscribe(connected: bool)
    | OnListenerFailed(connected: bool)

  function SubStep(s: SubData, e: SubEvent): SubData {
    match e
    case Attaching(conn, connected) => s.Attach(conn, connected)
    case Detaching(why) => s.Detach(why)
    case Terminating(end, why) => if end in {Closed, Failed} then s.Terminate(end, why) else s
    case OnState(conn, frame) => s.HandleState(conn, frame)
    case OnData(conn, connected, frame, throws) => s.HandleData(conn, connected, frame, throws)
    case OnSubscribeSettled(conn, answer) => s.SubscribeSettled(conn, answer)
    case OnResyncAcknowledged(conn, asked) => s.ResyncAcknowledged(conn, asked)
    case OnResyncRefused(conn, connected, asked, code) => s.ResyncRefused(conn, connected, asked, code)
    case OnRetry(retry, connected) => s.RetryFired(retry, connected)
    case OnResync(connected, authRequired) => s.Resynchronize(connected, authRequired)
    case OnUnsubscribe(connected) => s.UnsubscribeNow(connected)
    case OnListenerFailed(connected) => s.ListenerFailed(connected)
  }

  function SubRun(s: SubData, events: seq<SubEvent>): SubData
    decreases |events|
  {
    if events == [] then s else SubRun(SubStep(s, events[0]), events[1..])
  }
}
