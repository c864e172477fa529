/**
 * What a gateway frame does to a subscription, said in the frame's own terms: when it counts, and
 * exactly what the subscription then is.
 */
module SubscriptionFrames {
  import opened Wrappers
  import opened Revisions
  import opened SubscriptionSpec
  import opened SubscriptionSafety

  // --- state frames --------------------------------------------------------------------------

  /** Before its first epoch a subscription takes the empty name for its own. */
  predicate OfItsEpoch(s: SubData, epoch: string) {
    match s.epoch
    case Some(own) => epoch == own
    case None => epoch == ""
  }

  /** The frame counts: on the attached connection, of the epoch in view, neither early nor progress of an epoch being replaced. */
  predicate Counted(s: SubData, conn: ConnId, frame: StateFrame) {
    && !s.terminal && s.attached == Some(conn) && frame.state != Synchronizing && frame.state != Idle && OfItsEpoch(s, frame.epoch)
    && !(s.replacing == Some(frame.epoch) && (frame.state == Live || frame.state == ResyncRequired))
    && !(frame.state == Live && s.awaitingEpoch)
  }

  /** The subscription ended as the frame says, let its connection go and disarmed its timer. */
  predicate EndedBy(s: SubData, s': SubData, frame: StateFrame) {
    && s' == s.(state := frame.state, reason := frame.reason, terminal := true, attached := None, serverKnows := false, backoff := s'.backoff)
    && s'.backoff.handle.None?
    && s'.backoff.pending == if s.backoff.handle.None? then s.backoff.pending else s.backoff.pending - multiset{s.backoff.handle.value}
  }

  /** A frame that counts gives the subscription the state and the reason it names. */
  lemma StateFrameApplies(s: SubData, conn: ConnId, frame: StateFrame)
    requires Counted(s, conn, frame)
    ensures var s' := s.HandleState(conn, frame);
      match frame.state
      case Live => s' == s.(state := Live, reason := None, serverKnows := true, localFailures := 0)
      case Stale => s' == s.(state := Stale, reason := frame.reason, serverKnows := true)
      case Authorizing => s' == s.(state := Authorizing, reason := frame.reason, serverKnows := true)
      case ResyncRequired =>
        s' == s.(state := ResyncRequired, reason := Some(if frame.reason.Some? then frame.reason.value else ResyncNeeded),
                 serverKnows := true, resyncPending := false)
      case Failed => EndedBy(s, s', frame)
      case Closed => EndedBy(s, s', frame)
  {
  }

  /** Any other frame but a synchronizing one changes nothing; on the attached connection it shows that the gateway knows the subscription. */
  lemma OtherFramesIgnored(s: SubData, conn: ConnId, frame: StateFrame)
    requires frame.state != Synchronizing && !Counted(s, conn, frame)
    ensures s.HandleState(conn, frame) == s.(serverKnows := s.serverKnows || (!s.terminal && s.attached == Some(conn)))
  {
  }

  predicate Opens(s: SubData, conn: ConnId, frame: StateFrame) {
    !s.terminal && s.attached == Some(conn) && frame.state == Synchronizing && (s.epoch != Some(frame.epoch) || s.awaitingEpoch)
  }

  /** A synchronizing frame opens its epoch: a fresh stream that starts with a snapshot, and nothing asked for any more. */
  lemma EpochOpens(s: SubData, conn: ConnId, frame: StateFrame)
    requires Opens(s, conn, frame)
    ensures s.HandleState(conn, frame) ==
      s.(state := Synchronizing, reason := None, serverKnows := true, epoch := Some(frame.epoch), replacing := None,
         resyncPending := false, awaitingEpoch := false, progress := s.progress.(expectedSequence := 1, epochRevision := None),
         history := s.history.(accepted := s.history.accepted + [(conn, frame.epoch)]))
  {
  }

  /** What the last frame that counted named, since the epoch opened. */
  function NamedAfter(s: SubData, e: SubEvent, last: Option<SubscriptionState>): Option<SubscriptionState> {
    match e
    case OnState(conn, frame) => if Opens(s, conn, frame) then None else if Counted(s, conn, frame) then Some(frame.state) else last
    case _ => last
  }

  function LastNamed(s: SubData, events: seq<SubEvent>, last: Option<SubscriptionState>): Option<SubscriptionState>
    decreases |events|
  {
    if events == [] then last else LastNamed(SubStep(s, events[0]), events[1..], NamedAfter(s, events[0], last))
  }

  lemma StateFrameNames(s: SubData, conn: ConnId, frame: StateFrame, last: Option<SubscriptionState>)
    requires s.state == Live ==> last == Some(Live)
    ensures s.HandleState(conn, frame).state == Live ==> NamedAfter(s, OnState(conn, frame), last) == Some(Live)
  {
    if Counted(s, conn, frame) {
      StateFrameApplies(s, conn, frame);
    } else if Opens(s, conn, frame) {
      EpochOpens(s, conn, frame);
    } else if frame.state != Synchronizing {
      OtherFramesIgnored(s, conn, frame);
    }
  }

  /** Only a state frame makes a subscription live. */
  lemma OthersNeverLive(s: SubData, e: SubEvent)
    requires !e.OnState?
    ensures SubStep(s, e).state == Live ==> s.state == Live
  {
    match e
    case OnData(conn, connected, frame, throws) => DataNeverLive(s, conn, connected, frame, throws);
    case OnSubscribeSettled(_, _) =>
    case OnResyncRefused(_, _, _, _) =>
    case OnRetry(retry, connected) => FreshNeverLive(s.(backoff := s.backoff.Fire(retry)), connected);
    case OnResync(connected, _) => FreshNeverLive(s.(localFailures := 0), connected);
    case _ =>
  }

  lemma FreshNeverLive(s: SubData, connected: bool)
    ensures s.RequestFresh(connected).state == Live ==> s.state == Live
  {
  }

  lemma DataNeverLive(s: SubData, conn: ConnId, connected: bool, frame: DataFrame, throws: bool)
    ensures s.HandleData(conn, connected, frame, throws).state == Live ==> s.state == Live
  {
  }

  lemma {:induction false} LiveFrom(s: SubData, events: seq<SubEvent>, last: Option<SubscriptionState>)
    requires s.state == Live ==> last == Some(Live)
    ensures SubRun(s, events).state == Live ==> LastNamed(s, events, last) == Some(Live)
    decreases |events|
  {
    if events != [] {
      if events[0].OnState? {
        StateFrameNames(s, events[0].conn, events[0].stateFrame, last);
      } else {
        OthersNeverLive(s, events[0]);
      }
      LiveFrom(SubStep(s, events[0]), events[1..], NamedAfter(s, events[0], last));
    }
  }

  /** After any run, a live subscription's last frame that counted since its epoch opened was a live one. */
  lemma LiveWasNamed(contract: Contract, events: seq<SubEvent>)
    requires SubRun(NewSubscription(contract), events).state == Live
    ensures LastNamed(NewSubscription(contract), events, None) == Some(Live)
  {
    LiveFrom(NewSubscription(contract), events, None);
  }

  // --- data frames ---------------------------------------------------------------------------

  /** The frame is of the epoch being delivered, on the attached connection. */
  predicate Arrives(s: SubData, conn: ConnId, frame: DataFrame) {
    !s.terminal && s.attached == Some(conn) && !s.awaitingEpoch && s.epoch == Some(frame.epoch)
  }

  predicate RightContract(s: SubData, frame: DataFrame) {
    frame.event.channel == s.contract.channel && frame.event.channelVersion == s.contract.channelVersion
  }

  /** A snapshot comes first and is no older than anything delivered; updates follow, each newer than the one before. */
  predicate InOrder(s: SubData, frame: DataFrame) {
    if frame.sequence == 1
    then frame.event.kind == Snapshot && (s.progress.lastRevision.Some? ==> Value(frame.event.revision) >= Value(s.progress.lastRevision.value))
    else frame.event.kind == Update && (s.progress.epochRevision.Some? ==> Value(frame.event.revision) > Value(s.progress.epochRevision.value))
  }

  predicate IsNext(s: SubData, frame: DataFrame) {
    frame.sequence == s.progress.expectedSequence && RightContract(s, frame) && InOrder(s, frame)
  }

  /** The payload is at fault, rather than the order of frames. */
  predicate WrongPayload(s: SubData, frame: DataFrame) {
    frame.sequence == s.progress.expectedSequence && (!RightContract(s, frame) || (frame.sequence == 1 && frame.event.kind == Snapshot))
  }

  lemma ProblemIs(s: SubData, frame: DataFrame)
    ensures s.FrameProblem(frame) == if IsNext(s, frame) then None else Some(if WrongPayload(s, frame) then InvalidPayload else InvalidRequest)
  {
    if s.progress.lastRevision.Some? { CompareIsNumeric(frame.event.revision, s.progress.lastRevision.value); }
    if s.progress.epochRevision.Some? { CompareIsNumeric(frame.event.revision, s.progress.epochRevision.value); }
  }

  predicate Receipted(s: SubData, s': SubData, conn: ConnId, connected: bool, frame: DataFrame) {
    s'.history == s.history.(sent := s.history.sent + if connected then [Receipt(conn, frame.epoch, frame.sequence)] else [])
  }

  lemma NoneSent(h: History, message: Message, connected: bool)
    ensures h.Send(message, connected) == h.(sent := h.sent + if connected then [message] else [])
  {
    assert h.sent + [] == h.sent;
  }

  /** The next frame is delivered and receipted, and nothing else changes but the stream's memory of it. */
  lemma NextIsDelivered(s: SubData, conn: ConnId, connected: bool, frame: DataFrame)
    requires Arrives(s, conn, frame) && IsNext(s, frame)
    ensures var s' := s.HandleData(conn, connected, frame, false);
      && s' == s.(serverKnows := true, progress := s'.progress, history := s'.history)
      && s'.progress.delivered == s.progress.delivered + [Delivery(frame.sequence, frame.event.kind, frame.event.revision)]
      && s'.progress.expectedSequence == frame.sequence + 1 && s'.progress.epochRevision == Some(frame.event.revision)
      && Receipted(s, s', conn, connected, frame)
  {
    ProblemIs(s, frame);
    assert s.(serverKnows := true).FrameProblem(frame) == s.FrameProblem(frame);
    NoneSent(s.history, Receipt(conn, frame.epoch, frame.sequence), connected);
  }

  /** When a listener throws, the frame counts as delivered, the subscription fails and the gateway is told to drop it. */
  lemma ThrowingFails(s: SubData, conn: ConnId, connected: bool, frame: DataFrame)
    requires Arrives(s, conn, frame) && IsNext(s, frame)
    ensures var s' := s.HandleData(conn, connected, frame, true);
      && s'.state == Failed && s'.reason == Some(HandlerFailed) && s'.terminal && s'.attached.None?
      && s'.progress.delivered == s.progress.delivered + [Delivery(frame.sequence, frame.event.kind, frame.event.revision)]
      && s'.history == s.history.(sent := s.history.sent + if connected then [Unsubscribe(conn)] else [])
  {
    ProblemIs(s, frame);
    assert s.(serverKnows := true).FrameProblem(frame) == s.FrameProblem(frame);
    NoneSent(s.history, Unsubscribe(conn), connected);
  }

  /** A frame of the epoch that is not the next one is delivered to no one; below the limit it asks for a fresh epoch, at the limit it gives up. */
  lemma WrongIsRejected(s: SubData, conn: ConnId, connected: bool, frame: DataFrame, throws: bool)
    requires ViewInv(s) && Arrives(s, conn, frame) && !IsNext(s, frame)
    ensures var s' := s.HandleData(conn, connected, frame, throws);
      && s'.progress == s.progress && s'.localFailures == s.localFailures + 1 && s'.attached == s.attached && s'.epoch == s.epoch
      && (s.localFailures + 1 < 3 ==>
            && s'.state == Stale && s'.reason == Some(if WrongPayload(s, frame) then InvalidPayload else InvalidRequest)
            && s'.awaitingEpoch == connected && s'.resyncPending == connected && s'.replacing == (if connected then s.epoch else None)
            && s'.history == s.history.(sent := s.history.sent + if connected then [Message.Resync(conn)] else []))
      && (s.localFailures + 1 >= 3 ==>
            && s'.state == ResyncRequired && s'.reason == Some(ResyncNeeded) && s'.awaitingEpoch && !s'.serverKnows && !s'.resyncPending
            && s'.history == s.history.(sent := s.history.sent + if connected then [Unsubscribe(conn)] else []))
  {
    var known := s.(serverKnows := true);
    ProblemIs(s, frame);
    assert s.HandleData(conn, connected, frame, throws) == known.LocalSyncFailure(s.FrameProblem(frame).value, connected) by {
      RejectedIs(s, conn, connected, frame, throws);
    }
    Rejected(known, s.FrameProblem(frame).value, connected, conn);
  }

  lemma Rejected(s: SubData, code: ErrorCode, connected: bool, conn: ConnId)
    requires Synchronized(s) && s.serverKnows && s.attached == Some(conn) && !s.awaitingEpoch && !s.terminal
    ensures var s' := s.LocalSyncFailure(code, connected);
      && s'.progress == s.progress && s'.localFailures == s.localFailures + 1 && s'.attached == s.attached && s'.epoch == s.epoch
      && (s.localFailures + 1 < 3 ==>
            && s'.state == Stale && s'.reason == Some(code)
            && s'.awaitingEpoch == connected && s'.resyncPending == connected && s'.replacing == (if connected then s.epoch else None)
            && s'.history == s.history.(sent := s.history.sent + if connected then [Message.Resync(conn)] else []))
      && (s.localFailures + 1 >= 3 ==>
            && s'.state == ResyncRequired && s'.reason == Some(ResyncNeeded) && s'.awaitingEpoch && !s'.serverKnows && !s'.resyncPending
            && s'.history == s.history.(sent := s.history.sent + if connected then [Unsubscribe(conn)] else []))
  {
    assert s.history.sent + [] == s.history.sent;
  }

  /** Frames of other epochs and connections are delivered to no one; one of an epoch being replaced is still receipted. */
  lemma OthersUndelivered(s: SubData, conn: ConnId, connected: bool, frame: DataFrame, throws: bool)
    requires !Arrives(s, conn, frame)
    ensures var s' := s.HandleData(conn, connected, frame, throws);
      var here := !s.terminal && s.attached == Some(conn);
      && s' == s.(serverKnows := s.serverKnows || here, history := s'.history)
      && if here && s.epoch == Some(frame.epoch) then Receipted(s, s', conn, connected, frame) else s'.history == s.history
  {
    NoneSent(s.history, Receipt(conn, frame.epoch, frame.sequence), connected);
  }
}
