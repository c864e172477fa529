/**
 * What holds of one subscription whatever happens to it: any frames and answers from the gateway,
 * in any order, across resyncs, retries and reconnections.
 */
module SubscriptionSafety {
  import opened Wrappers
  import opened Revisions
  import opened SubscriptionSpec

  /** A view that is not waiting for an epoch accepted its epoch's synchronizing frame on the connection it is attached to. */
  ghost predicate Synchronized(s: SubData) {
    && s.attached.Some?
    && s.epoch.Some?
    && s.replacing.None?
    && !s.resyncPending
    && |s.history.accepted| > 0
    && s.history.accepted[|s.history.accepted| - 1] == (s.attached.value, s.epoch.value)
  }

  /** One snapshot, then updates numbered 2, 3 and so on, then perhaps the next block's snapshot. */
  ghost predicate InBlocks(delivered: seq<Delivery>) {
    forall i :: 0 <= i < |delivered| ==> Follows(delivered, i)
  }

  ghost predicate Follows(delivered: seq<Delivery>, i: nat)
    requires i < |delivered|
  {
    var d := delivered[i];
    if d.sequence == 1 then
      d.kind == Snapshot && (i > 0 ==> Value(delivered[i - 1].revision) <= Value(d.revision))
    else
      && d.kind == Update
      && i > 0
      && delivered[i - 1].sequence == d.sequence - 1
      && Value(delivered[i - 1].revision) < Value(d.revision)
  }

  /** The fields that remember the last delivery agree with it. */
  ghost predicate Remembers(p: Progress) {
    && p.expectedSequence >= 1
    && (p.expectedSequence > 1 ==>
          && |p.delivered| > 0
          && p.delivered[|p.delivered| - 1].sequence == p.expectedSequence - 1
          && p.epochRevision == Some(p.delivered[|p.delivered| - 1].revision))
    && p.lastRevision == (if p.delivered == [] then None else Some(p.delivered[|p.delivered| - 1].revision))
  }

  ghost predicate StreamInv(p: Progress) {
    Remembers(p) && InBlocks(p.delivered)
  }

  ghost predicate ViewInv(s: SubData) {
    && (!s.terminal && !s.awaitingEpoch ==> Synchronized(s))
    && (s.state == Live ==> !s.terminal && !s.awaitingEpoch && s.serverKnows)
    && (s.terminal <==> s.state == Failed || s.state == Closed)
    && (s.terminal ==> s.attached.None?)
  }

  ghost predicate Inv(s: SubData) {
    ViewInv(s) && StreamInv(s.progress)
  }

  lemma NewInv(contract: Contract)
    ensures Inv(NewSubscription(contract))
  {
  }

  /** Accepting the next frame extends the blocks. */
  lemma DeliveringInv(s: SubData, frame: DataFrame)
    requires StreamInv(s.progress)
    requires s.FrameProblem(frame).None?
    ensures StreamInv(s.progress.Delivering(frame))
  {
    var p := s.progress;
    var before, after := p.delivered, p.Delivering(frame).delivered;
    if p.lastRevision.Some? {
      CompareIsNumeric(frame.event.revision, p.lastRevision.value);
    }
    if p.epochRevision.Some? {
      CompareIsNumeric(frame.event.revision, p.epochRevision.value);
    }
    forall i | 0 <= i < |after|
      ensures Follows(after, i)
    {
      if i < |before| {
        assert Follows(before, i);
      }
    }
  }

  /** Only a delivery moves the stream on; a new epoch starts it over. */
  predicate StreamKept(s: SubData, s': SubData) {
    s'.progress == s.progress || s'.progress == s.progress.NewEpoch()
  }

  lemma RequestFreshKeeps(s: SubData, connected: bool)
    ensures s.RequestFresh(connected).progress == s.progress
  {
  }

  lemma StateKeeps(s: SubData, conn: ConnId, frame: StateFrame)
    ensures StreamKept(s, s.HandleState(conn, frame))
  {
  }

  lemma SubscribeKeeps(s: SubData, conn: ConnId, answer: Answer)
    ensures s.SubscribeSettled(conn, answer).progress == s.progress
  {
  }

  lemma ResyncRefusedKeeps(s: SubData, conn: ConnId, connected: bool, asked: Option<string>, code: ErrorCode)
    ensures s.ResyncRefused(conn, connected, asked, code).progress == s.progress
  {
  }

  lemma RetryKeeps(s: SubData, retry: Retry, connected: bool)
    ensures s.RetryFired(retry, connected).progress == s.progress
  {
    RequestFreshKeeps(s.(backoff := s.backoff.Fire(retry)), connected);
  }

  lemma ProgressStep(s: SubData, e: SubEvent)
    requires !e.OnData?
    ensures StreamKept(s, SubStep(s, e))
  {
    match e
    case OnState(conn, frame) => StateKeeps(s, conn, frame);
    case OnSubscribeSettled(conn, answer) => SubscribeKeeps(s, conn, answer);
    case OnResyncRefused(conn, connected, asked, code) => ResyncRefusedKeeps(s, conn, connected, asked, code);
    case OnRetry(retry, connected) => RetryKeeps(s, retry, connected);
    case OnResync(connected, _) => RequestFreshKeeps(s.(localFailures := 0), connected);
    case Attaching(conn, connected) =>
    case Detaching(why) =>
    case Terminating(end, why) =>
    case OnResyncAcknowledged(conn, asked) =>
    case OnUnsubscribe(connected) =>
    case OnListenerFailed(connected) =>
  }

  lemma DataProgress(s: SubData, conn: ConnId, connected: bool, frame: DataFrame, listenerThrows: bool)
    ensures s.HandleData(conn, connected, frame, listenerThrows).progress ==
            if s.Delivers(conn, frame) && s.FrameProblem(frame).None? then s.progress.Delivering(frame) else s.progress
  {
  }

  lemma StreamStep(s: SubData, e: SubEvent)
    requires StreamInv(s.progress)
    ensures StreamInv(SubStep(s, e).progress)
  {
    match e
    case OnData(conn, connected, frame, throws) =>
      DataProgress(s, conn, connected, frame, throws);
      if s.Delivers(conn, frame) && s.FrameProblem(frame).None? {
        DeliveringInv(s, frame);
      }
    case _ => ProgressStep(s, e);
  }

  lemma RequestFreshView(s: SubData, connected: bool)
    requires ViewInv(s)
    ensures ViewInv(s.RequestFresh(connected))
  {
  }

  lemma StateFrameView(s: SubData, conn: ConnId, frame: StateFrame)
    requires ViewInv(s)
    ensures ViewInv(s.HandleState(conn, frame))
  {
    if s.terminal || s.attached != Some(conn) {
    } else if frame.state == Synchronizing {
      OpenEpochView(s, conn, frame.epoch);
    } else {
      AppliedStateView(s, conn, frame);
    }
  }

  lemma AppliedStateView(s: SubData, conn: ConnId, frame: StateFrame)
    requires ViewInv(s) && !s.terminal && s.attached == Some(conn) && frame.state != Synchronizing
    ensures ViewInv(s.HandleState(conn, frame))
  {
    if s.Ignores(frame) {
      assert s.HandleState(conn, frame) == s.(serverKnows := true);
    } else if frame.state == Failed || frame.state == Closed {
      assert s.HandleState(conn, frame) == s.Terminate(frame.state, frame.reason).(serverKnows := false);
    }
  }

  lemma OpenEpochView(s: SubData, conn: ConnId, epoch: string)
    requires ViewInv(s) && !s.terminal && s.attached == Some(conn)
    ensures ViewInv(s.OpenEpoch(conn, epoch))
  {
  }

  lemma DataFrameView(s: SubData, conn: ConnId, connected: bool, frame: DataFrame, listenerThrows: bool)
    requires ViewInv(s)
    ensures ViewInv(s.HandleData(conn, connected, frame, listenerThrows))
  {
    if s.Delivers(conn, frame) {
      match s.FrameProblem(frame)
      case Some(code) =>
        RequestFreshView(s.(state := Stale, reason := Some(code), serverKnows := true, localFailures := s.localFailures + 1), connected);
      case None =>
    }
  }

  lemma RefusalView(s: SubData, code: ErrorCode, retry: Retry)
    requires ViewInv(s) && !s.terminal
    ensures ViewInv(s.Refusal(code, retry))
  {
  }

  lemma SubscribeView(s: SubData, conn: ConnId, answer: Answer)
    requires ViewInv(s)
    ensures ViewInv(s.SubscribeSettled(conn, answer))
  {
    if !s.terminal && answer.Refused? {
      RefusalView(s.(subscribeInFlight := false), answer.code, Resubscribe(conn));
    }
  }

  lemma ResyncRefusedView(s: SubData, conn: ConnId, connected: bool, asked: Option<string>, code: ErrorCode)
    requires ViewInv(s)
    ensures ViewInv(s.ResyncRefused(conn, connected, asked, code))
  {
    if !s.terminal && s.attached == Some(conn) && code != InvalidRequest {
      var waiting := s.(replacing := None, resyncPending := false, awaitingEpoch := true);
      if s.state != Live {
        RefusalView(waiting, code, Retry.Resynchronize(conn));
      }
    }
  }

  lemma RetryView(s: SubData, retry: Retry, connected: bool)
    requires ViewInv(s)
    ensures ViewInv(s.RetryFired(retry, connected))
  {
    RequestFreshView(s.(backoff := s.backoff.Fire(retry)), connected);
  }

  lemma ViewStep(s: SubData, e: SubEvent)
    requires ViewInv(s)
    ensures ViewInv(SubStep(s, e))
  {
    match e
    case OnState(conn, frame) => StateFrameView(s, conn, frame);
    case OnData(conn, connected, frame, throws) => DataFrameView(s, conn, connected, frame, throws);
    case OnSubscribeSettled(conn, answer) => SubscribeView(s, conn, answer);
    case OnResyncRefused(conn, connected, asked, code) => ResyncRefusedView(s, conn, connected, asked, code);
    case OnRetry(retry, connected) => RetryView(s, retry, connected);
    case OnResync(connected, _) => RequestFreshView(s.(localFailures := 0), connected);
    case _ => OtherView(s, e);
  }

  lemma OtherView(s: SubData, e: SubEvent)
    requires ViewInv(s)
    requires e.Attaching? || e.Detaching? || e.Terminating? || e.OnResyncAcknowledged? || e.OnUnsubscribe? || e.OnListenerFailed?
    ensures ViewInv(SubStep(s, e))
  {
  }

  /** Every event keeps the invariant, whoever sends it. */
  lemma StepInv(s: SubData, e: SubEvent)
    requires Inv(s)
    ensures Inv(SubStep(s, e))
  {
    StreamStep(s, e);
    ViewStep(s, e);
  }

  lemma {:induction false} RunInv(s: SubData, events: seq<SubEvent>)
    requires Inv(s)
    ensures Inv(SubRun(s, events))
    decreases |events|
  {
    if events != [] {
      StepInv(s, events[0]);
      RunInv(SubStep(s, events[0]), events[1..]);
    }
  }

  // --- deliveries ---------------------------------------------------------------------------

  lemma {:induction false} NeverDown(delivered: seq<Delivery>, i: nat, j: nat)
    requires InBlocks(delivered)
    requires i <= j < |delivered|
    ensures Value(delivered[i].revision) <= Value(delivered[j].revision)
  {
    if i < j {
      NeverDown(delivered, i, j - 1);
      assert Follows(delivered, j);
    }
  }

  /**
   * Over a subscription's whole life the delivered events form blocks of one snapshot followed by
   * updates numbered in order; revisions never go down, and each update's is higher than the last.
   */
  lemma DeliveredInBlocks(contract: Contract, events: seq<SubEvent>, i: nat, j: nat)
    requires i < j < |SubRun(NewSubscription(contract), events).progress.delivered|
    ensures var delivered := SubRun(NewSubscription(contract), events).progress.delivered;
      && delivered[0].sequence == 1
      && (forall k :: 0 <= k < |delivered| ==> (delivered[k].sequence == 1 <==> delivered[k].kind == Snapshot))
      && (delivered[j].sequence != 1 ==>
            delivered[j].sequence == delivered[j - 1].sequence + 1 && Value(delivered[i].revision) < Value(delivered[j].revision))
      && Value(delivered[i].revision) <= Value(delivered[j].revision)
  {
    var s := NewSubscription(contract);
    NewInv(contract);
    RunInv(s, events);
    var delivered := SubRun(s, events).progress.delivered;
    forall k | 0 <= k < |delivered|
      ensures delivered[k].sequence == 1 <==> delivered[k].kind == Snapshot
      ensures k == 0 ==> delivered[k].sequence == 1
    {
      assert Follows(delivered, k);
    }
    NeverDown(delivered, i, j);
    NeverDown(delivered, i, j - 1);
    assert Follows(delivered, j);
  }

  // --- retries --------------------------------------------------------------------------------

  /** A live frame of the current epoch, or an explicit resync that is not joined: the failure count starts over. */
  predicate Resets(s: SubData, e: SubEvent) {
    match e
    case OnState(conn, frame) =>
      && !s.terminal && s.attached == Some(conn)
      && frame.state == Live && !s.awaitingEpoch
      && s.epoch == Some(frame.epoch) && s.replacing != Some(frame.epoch)
    case OnResync(_, authRequired) => !s.terminal && !authRequired && !s.resyncPending
    case _ => false
  }

  /** A failure the subscription counts: a frame it rejects, or an overload refusal it was waiting for. */
  predicate Counts(s: SubData, e: SubEvent) {
    match e
    case OnData(conn, _, frame, _) =>
      && !s.terminal && s.attached == Some(conn)
      && !s.awaitingEpoch && s.epoch == Some(frame.epoch)
      && s.FrameProblem(frame).Some?
    case OnSubscribeSettled(conn, answer) => !s.terminal && s.attached == Some(conn) && answer == Refused(Overloaded)
    case OnResyncRefused(conn, _, asked, code) =>
      && !s.terminal && s.attached == Some(conn)
      && code != InvalidRequest && s.replacing == asked && s.epoch == asked
    case _ => false
  }

  /** The step starts a retry: it arms a backoff timer, or sends a new subscribe or resync request. */
  ghost predicate Triggers(s: SubData, s': SubData) {
    || (exists retry :: s'.backoff.pending[retry] > s.backoff.pending[retry])
    || (exists k :: |s.history.sent| <= k < |s'.history.sent| && (s'.history.sent[k].Subscribe? || s'.history.sent[k].Resync?))
  }

  /** The connection is still up when the failure is noticed. */
  predicate ConnectedAt(e: SubEvent) {
    match e
    case OnData(_, connected, _, _) => connected
    case OnResyncRefused(_, connected, _, _) => connected
    case _ => true
  }

  lemma ArmTriggers(s: SubData, s': SubData, retry: Retry)
    requires s'.backoff.pending == s.backoff.pending + multiset{retry}
    ensures Triggers(s, s')
  {
    assert s'.backoff.pending[retry] > s.backoff.pending[retry];
  }

  /** A rejected frame: a fresh synchronization is asked for, or the gateway is told to drop the subscription. */
  lemma RejectedStep(s: SubData, code: ErrorCode, connected: bool)
    requires ViewInv(s) && !s.terminal && s.attached.Some? && !s.awaitingEpoch
    ensures var s' := s.LocalSyncFailure(code, connected);
      && s'.localFailures == s.localFailures + 1
      && (Triggers(s, s') ==> s.localFailures + 1 < LOCAL_SYNC_ATTEMPTS)
      && (connected && s.localFailures + 1 < LOCAL_SYNC_ATTEMPTS ==> Triggers(s, s'))
      && s'.state == if s.localFailures + 1 < LOCAL_SYNC_ATTEMPTS then Stale else ResyncRequired
  {
    var s' := s.LocalSyncFailure(code, connected);
    if s.localFailures + 1 >= LOCAL_SYNC_ATTEMPTS {
      assert forall k :: |s.history.sent| <= k < |s'.history.sent| ==> s'.history.sent[k].Unsubscribe?;
    } else if connected {
      assert s'.history.sent[|s.history.sent|] == Message.Resync(s.attached.value);
    }
  }

  lemma RejectedIs(s: SubData, conn: ConnId, connected: bool, frame: DataFrame, throws: bool)
    requires Counts(s, OnData(conn, connected, frame, throws))
    ensures s.HandleData(conn, connected, frame, throws) == s.(serverKnows := true).LocalSyncFailure(s.FrameProblem(frame).value, connected)
  {
    assert s.(serverKnows := true).FrameProblem(frame) == s.FrameProblem(frame);
  }

  /** One counted failure: the count rises by one, and, while connected, it triggers a retry exactly when it is not the third. */
  lemma FailureStep(s: SubData, e: SubEvent)
    requires Inv(s)
    requires Counts(s, e)
    ensures SubStep(s, e).localFailures == s.localFailures + 1
    ensures Triggers(s, SubStep(s, e)) ==> s.localFailures + 1 < LOCAL_SYNC_ATTEMPTS
    ensures ConnectedAt(e) && s.localFailures + 1 < LOCAL_SYNC_ATTEMPTS ==> Triggers(s, SubStep(s, e))
    ensures s.localFailures + 1 >= LOCAL_SYNC_ATTEMPTS ==> SubStep(s, e).state == ResyncRequired
    ensures s.localFailures + 1 < LOCAL_SYNC_ATTEMPTS ==> SubStep(s, e).state == Stale
  {
    var s' := SubStep(s, e);
    match e
    case OnData(conn, connected, frame, throws) =>
      var known, code := s.(serverKnows := true), s.FrameProblem(frame).value;
      assert s' == known.LocalSyncFailure(code, connected) by { RejectedIs(s, conn, connected, frame, throws); }
      RejectedStep(known, code, connected);
      assert Triggers(known, s') <==> Triggers(s, s');
    case OnSubscribeSettled(conn, _) =>
      if s.localFailures + 1 < LOCAL_SYNC_ATTEMPTS {
        ArmTriggers(s, s', Resubscribe(conn));
      }
    case OnResyncRefused(conn, _, _, _) =>
      if s.localFailures + 1 < LOCAL_SYNC_ATTEMPTS {
        ArmTriggers(s, s', Retry.Resynchronize(conn));
      }
  }

  lemma OtherData(s: SubData, conn: ConnId, connected: bool, frame: DataFrame, throws: bool)
    requires !Counts(s, OnData(conn, connected, frame, throws))
    ensures s.HandleData(conn, connected, frame, throws).localFailures == s.localFailures
  {
    assert s.(serverKnows := true).FrameProblem(frame) == s.FrameProblem(frame);
  }

  /** Nothing else moves the count: re-subscribing because the gateway lost the subscription is not a failure. */
  lemma OtherStep(s: SubData, e: SubEvent)
    requires Inv(s)
    requires !Counts(s, e) && !Resets(s, e)
    ensures SubStep(s, e).localFailures == s.localFailures
  {
    match e
    case OnData(conn, connected, frame, throws) => OtherData(s, conn, connected, frame, throws);
    case OnState(conn, frame) => OtherState(s, conn, frame);
    case OnResyncRefused(conn, connected, asked, code) => OtherRefused(s, conn, connected, asked, code);
    case OnSubscribeSettled(conn, answer) =>
    case OnRetry(retry, connected) =>
    case _ =>
  }

  lemma OtherRefused(s: SubData, conn: ConnId, connected: bool, asked: Option<string>, code: ErrorCode)
    requires !Counts(s, OnResyncRefused(conn, connected, asked, code))
    ensures s.ResyncRefused(conn, connected, asked, code).localFailures == s.localFailures
  {
  }

  lemma OtherState(s: SubData, conn: ConnId, frame: StateFrame)
    requires ViewInv(s) && !Resets(s, OnState(conn, frame))
    ensures s.HandleState(conn, frame).localFailures == s.localFailures
  {
    assert frame.state == Live && !s.Ignores(frame) ==> s.terminal || s.attached != Some(conn);
  }

  lemma ResetStep(s: SubData, e: SubEvent)
    requires Resets(s, e)
    ensures SubStep(s, e).localFailures == 0
  {
  }

  ghost predicate NoResets(s: SubData, events: seq<SubEvent>)
    decreases |events|
  {
    events != [] ==> !Resets(s, events[0]) && NoResets(SubStep(s, events[0]), events[1..])
  }

  /** How many of the events are counted failures. */
  function FailureCount(s: SubData, events: seq<SubEvent>): nat
    decreases |events|
  {
    if events == [] then 0
    else (if Counts(s, events[0]) then 1 else 0) + FailureCount(SubStep(s, events[0]), events[1..])
  }

  /** How many counted failures triggered a retry. */
  ghost function RetryCount(s: SubData, events: seq<SubEvent>): nat
    decreases |events|
  {
    if events == [] then 0
    else
      (if Counts(s, events[0]) && Triggers(s, SubStep(s, events[0])) then 1 else 0)
      + RetryCount(SubStep(s, events[0]), events[1..])
  }

  lemma {:induction false} RetriesFrom(s: SubData, events: seq<SubEvent>)
    requires Inv(s) && NoResets(s, events)
    ensures SubRun(s, events).localFailures == s.localFailures + FailureCount(s, events)
    ensures RetryCount(s, events) <= FailureCount(s, events)
    ensures RetryCount(s, events) == 0 || s.localFailures + RetryCount(s, events) < LOCAL_SYNC_ATTEMPTS
    decreases |events|
  {
    if events != [] {
      var next := SubStep(s, events[0]);
      StepInv(s, events[0]);
      RetriesFrom(next, events[1..]);
      if Counts(s, events[0]) {
        FailureStep(s, events[0]);
      } else {
        OtherStep(s, events[0]);
      }
    }
  }

  /**
   * From creation, or from a reset (which clears the count), until the next reset: refusals and
   * rejected frames together trigger at most two retries, the first two of them each start one while
   * connected, and the third, like every later one, leaves the subscription resync-required.
   */
  lemma AtMostTwoRetries(contract: Contract, before: seq<SubEvent>, events: seq<SubEvent>, failure: SubEvent)
    requires var s := SubRun(NewSubscription(contract), before);
      s.localFailures == 0 && NoResets(s, events) && Counts(SubRun(s, events), failure)
    ensures var s := SubRun(NewSubscription(contract), before);
      var failed := SubStep(SubRun(s, events), failure);
      && RetryCount(s, events) <= 2
      && (FailureCount(s, events) < 2 ==> failed.state == Stale && (ConnectedAt(failure) ==> Triggers(SubRun(s, events), failed)))
      && (FailureCount(s, events) >= 2 ==> failed.state == ResyncRequired && !Triggers(SubRun(s, events), failed))
  {
    NewInv(contract);
    RunInv(NewSubscription(contract), before);
    var s := SubRun(NewSubscription(contract), before);
    RetriesFrom(s, events);
    RunInv(s, events);
    FailureStep(SubRun(s, events), failure);
  }
}
