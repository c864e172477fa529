/**
 * What calls, answers and timers do to a subscription, said in full: what is asked of the gateway,
 * when it is told that the subscription is over, and what no longer changes then.
 */
module SubscriptionAnswers {
  import opened Wrappers
  import opened SubscriptionSpec
  import opened SubscriptionSafety

  /** The history with one more message, if the connection is up to carry it. */
  function Telling(h: History, message: Message, connected: bool): History {
    h.(sent := h.sent + if connected then [message] else [])
  }

  lemma TellingIs(h: History, message: Message, connected: bool)
    ensures h.Send(message, connected) == Telling(h, message, connected)
  {
    assert h.sent + [] == h.sent;
  }

  /** The timer armed last is disarmed; one armed before it may still fire. */
  predicate Disarmed(before: Backoff, after: Backoff) {
    && after.handle.None?
    && after.pending == if before.handle.None? then before.pending else before.pending - multiset{before.handle.value}
  }

  // --- starting over --------------------------------------------------------------------------

  /** Subscribed anew on the connection: nothing is known of the gateway's side, and the old epoch is forgotten. */
  predicate StartedOn(s: SubData, s': SubData, conn: ConnId, connected: bool) {
    && s' == s.(state := Authorizing, reason := None, attached := Some(conn), serverKnows := false, subscribeInFlight := true,
                epoch := None, replacing := None, resyncPending := false, awaitingEpoch := true, backoff := s'.backoff,
                history := Telling(s.history.(attachments := s.history.attachments + [conn]), Subscribe(conn), connected))
    && Disarmed(s.backoff, s'.backoff)
  }

  lemma AttachStarts(s: SubData, conn: ConnId, connected: bool)
    ensures if s.terminal then s.Attach(conn, connected) == s else StartedOn(s, s.Attach(conn, connected), conn, connected)
  {
    TellingIs(s.history.(attachments := s.history.attachments + [conn]), Subscribe(conn), connected);
  }

  /** A replacement of the epoch in view is asked for, and awaited. */
  predicate ReplacementAsked(s: SubData, s': SubData, conn: ConnId) {
    && s' == s.(state := if s.state == Stale || s.terminal then s.state else Authorizing, reason := if s.state == Stale || s.terminal then s.reason else None,
                replacing := s.epoch, resyncPending := true, awaitingEpoch := true, backoff := s'.backoff,
                history := Telling(s.history, Message.Resync(conn), true))
    && Disarmed(s.backoff, s'.backoff)
  }

  /**
   * Asking for a fresh synchronization: over a connection that is up, a gateway that lost the subscription is
   * subscribed to again, one that has it is asked for a replacement, and one already on it is waited for.
   */
  lemma FreshAsks(s: SubData, connected: bool)
    ensures var s' := s.RequestFresh(connected);
      if s.attached.None? || !connected then s' == s
      else if s.serverKnows then
        if s.state == Authorizing || s.state == Synchronizing || s.resyncPending then s' == s
        else ReplacementAsked(s, s', s.attached.value)
      else
        if s.state == Authorizing || s.terminal then s' == s else StartedOn(s, s', s.attached.value, true)
  {
    if s.attached.Some? {
      AttachStarts(s, s.attached.value, connected);
      TellingIs(s.history, Message.Resync(s.attached.value), connected);
    }
  }

  /** An explicit resync starts the count over and asks; it joins a request on its way, and does nothing for one that is over. */
  lemma ResyncAsks(s: SubData, connected: bool, authRequired: bool)
    ensures s.Resynchronize(connected, authRequired) ==
            if !s.terminal && !authRequired && !s.resyncPending then s.(localFailures := 0).RequestFresh(connected) else s
  {
  }

  // --- answers --------------------------------------------------------------------------------

  /** A refusal counts: it is tried again later, or given up at the third, with the refusal as the reason. */
  predicate RefusalCounted(s: SubData, s': SubData, code: ErrorCode, retry: Retry) {
    if s.localFailures < 2
    then s' == s.(state := Stale, reason := Some(code), localFailures := s.localFailures + 1,
                  backoff := Backoff(Some(retry), s.backoff.pending + multiset{retry}))
    else s' == s.(state := ResyncRequired, reason := Some(code), resyncPending := false, localFailures := s.localFailures + 1)
  }

  /** Over for good, as the gateway or the application decided. */
  predicate Over(s: SubData, s': SubData, end: SubscriptionState, why: Option<ErrorCode>, history: History) {
    && s' == s.(state := end, reason := why, terminal := true, attached := None, backoff := s'.backoff,
                unsubscribing := s'.unsubscribing, history := history, subscribeInFlight := s'.subscribeInFlight)
    && Disarmed(s.backoff, s'.backoff)
  }

  /** The answer to a subscribe, on the connection it was sent on. */
  lemma SubscribeAnswered(s: SubData, conn: ConnId, answer: Answer)
    requires !s.terminal && s.attached == Some(conn)
    ensures var s', settled := s.SubscribeSettled(conn, answer), s.(subscribeInFlight := false);
      match answer
      case Acknowledged => s' == settled.(serverKnows := true)
      case Unanswered => s' == settled
      case Refused(code) =>
        if code == Overloaded then RefusalCounted(settled, s', code, Resubscribe(conn))
        else Over(s, s', Failed, Some(code), s.history) && !s'.subscribeInFlight && s'.unsubscribing == s.unsubscribing
  {
  }

  /** An answer on another connection, or for a subscription that is over, changes at most that none is in flight. */
  lemma LateAnswerIgnored(s: SubData, conn: ConnId, answer: Answer)
    requires s.terminal || s.attached != Some(conn)
    ensures s.SubscribeSettled(conn, answer) ==
            s.(subscribeInFlight := if s.attached.None? || s.attached == Some(conn) then false else s.subscribeInFlight)
  {
  }

  /** The answer to a resync request on its connection: an unknown subscription is made anew, and a refusal of the request still open counts. */
  lemma ResyncAnswered(s: SubData, conn: ConnId, connected: bool, asked: Option<string>, code: ErrorCode)
    requires !s.terminal && s.attached == Some(conn)
    ensures var s' := s.ResyncRefused(conn, connected, asked, code);
      if code == InvalidRequest then StartedOn(s, s', conn, connected)
      else if s.replacing == asked && s.epoch == asked then
        RefusalCounted(s.(replacing := None, resyncPending := false, awaitingEpoch := true), s', code, Retry.Resynchronize(conn))
      else s' == s
  {
    AttachStarts(s, conn, connected);
  }

  lemma OtherResyncAnswers(s: SubData, conn: ConnId, connected: bool, asked: Option<string>, code: ErrorCode)
    ensures s.terminal || s.attached != Some(conn) ==> s.ResyncRefused(conn, connected, asked, code) == s
    ensures s.ResyncAcknowledged(conn, asked) == if s.attached == Some(conn) && s.replacing == asked then s.(replacing := None) else s
  {
  }

  /** A timer that fires acts only for the connection it was armed on, and only while that is up. */
  lemma TimerActs(s: SubData, retry: Retry, connected: bool)
    requires retry in s.backoff.pending
    ensures var s', fired := s.RetryFired(retry, connected), s.(backoff := Backoff(None, s.backoff.pending - multiset{retry}));
      if s.terminal || s.attached != Some(retry.conn) || !connected then s' == fired
      else if retry.Resubscribe? then StartedOn(fired, s', retry.conn, true)
      else s' == fired.RequestFresh(true)
  {
    AttachStarts(s.(backoff := Backoff(None, s.backoff.pending - multiset{retry})), retry.conn, connected);
  }

  // --- the end ----------------------------------------------------------------------------------

  /** A gateway that may hold the subscription is told, over the connection it is attached to, if that is up. */
  function Told(s: SubData, connected: bool): History {
    if s.attached.Some? && (s.serverKnows || s.subscribeInFlight) then Telling(s.history, Unsubscribe(s.attached.value), connected) else s.history
  }

  lemma ToldIs(s: SubData, connected: bool)
    ensures s.Farewell(connected) == Told(s, connected)
  {
    if s.attached.Some? { TellingIs(s.history, Unsubscribe(s.attached.value), connected); }
  }

  /** Unsubscribing closes the subscription and tells the gateway, once; one that had ended keeps its end. */
  lemma UnsubscribeEnds(s: SubData, connected: bool)
    ensures var s' := s.UnsubscribeNow(connected);
      if s.unsubscribing then s' == s
      else if s.terminal then s' == s.(unsubscribing := true, history := Told(s, connected))
      else Over(s, s', Closed, None, Told(s, connected)) && s'.unsubscribing && s'.subscribeInFlight == s.subscribeInFlight
  {
    ToldIs(s, connected);
  }

  /** A listener that throws fails the subscription, and the gateway is told. */
  lemma ListenerEnds(s: SubData, connected: bool)
    ensures var s' := s.ListenerFailed(connected);
      if s.terminal then s' == s
      else Over(s, s', Failed, Some(HandlerFailed), Told(s, connected)) && s'.unsubscribing == s.unsubscribing && s'.subscribeInFlight == s.subscribeInFlight
  {
    ToldIs(s, connected);
  }

  lemma DetachLetsGo(s: SubData, why: Option<ErrorCode>)
    ensures var s' := s.Detach(why);
      && Disarmed(s.backoff, s'.backoff)
      && s' == s.(state := if s.terminal || s.state == ResyncRequired then s.state else Stale,
                  reason := if s.terminal || s.state == ResyncRequired then s.reason else why,
                  attached := None, serverKnows := false, subscribeInFlight := false, replacing := None, resyncPending := false,
                  awaitingEpoch := true, backoff := s'.backoff)
  {
  }

  /** Once over: the end and its reason, what was delivered and which connections were met never change again, and nothing is armed. */
  predicate Finished(s: SubData, s': SubData) {
    && s'.terminal && s'.state == s.state && s'.reason == s.reason && s'.progress == s.progress && s'.attached.None?
    && s'.history == s.history && s'.localFailures == s.localFailures && s'.backoff.pending <= s.backoff.pending
  }

  lemma StepFinished(s: SubData, e: SubEvent)
    requires s.terminal && s.attached.None?
    ensures Finished(s, SubStep(s, e))
  {
    match e
    case OnResync(connected, _) => FreshAsks(s.(localFailures := 0), connected);
    case OnRetry(retry, connected) => FreshAsks(s.(backoff := s.backoff.Fire(retry)), connected);
    case _ =>
  }

  /** A subscription that is over stays as it ended, whatever comes: no delivery, no message, no retry. */
  lemma {:induction false} FinishedForGood(s: SubData, events: seq<SubEvent>)
    requires s.terminal && s.attached.None?
    ensures Finished(s, SubRun(s, events))
    decreases |events|
  {
    if events != [] {
      StepFinished(s, events[0]);
      FinishedForGood(SubStep(s, events[0]), events[1..]);
    }
  }
}
