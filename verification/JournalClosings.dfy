/** What a rebaseline leaves of the incidents it closes, and what it logs of them. */
module JournalClosings {
  import opened Wrappers
  import opened JournalSpec
  import opened JournalSafety
  import opened JournalClaims
  import opened JournalRebaseline
  import opened JournalWrites

  /** Closed as rebaselined: a retry in flight is held again, and an unconfirmed advance stays uncertain. */
  predicate ClosedAs(r: Incident, s: Incident, q: Request) {
    && s == r.(state := Resolved, resolution := Some("rebaselined to generation " + q.source.generation), progress := s.progress,
               revision := r.revision + 1, updatedAt := q.at)
    && s.progress == (if r.progress == Retrying then Held else if r.progress == AdvancePending then Uncertain else r.progress)
  }

  function ClosedEvent(r: Incident, q: Request): Event {
    Event(r.failureId, q.at, "operator", "rebaseline from generation " + r.generation + ": " + q.reason, Some(q.operationId))
  }

  /** The incident's history gains the closing if it was closed, and otherwise stays. */
  predicate ClosingLogged(before: seq<Event>, after: seq<Event>, r: Incident, closed: bool, q: Request) {
    History(after, r.failureId) == if closed then Newest(History(before, r.failureId) + [ClosedEvent(r, q)]) else History(before, r.failureId)
  }

  lemma OneLogged(t: Tables, u: Tables, r: Incident, q: Request)
    requires CloseOne(t, r, q) == Ok(u)
    ensures Logged(t.events, u.events, ClosedEvent(r, q))
  {
    EventLogged(t.(incidents := u.incidents), ClosedEvent(r, q));
  }

  lemma {:induction false} AllLogged(t: Tables, stale: seq<Incident>, q: Request, r: Incident)
    requires CloseAll(t, stale, q).Ok? && DistinctIncidents(stale)
    requires forall s <- stale :: s.failureId == r.failureId ==> s == r
    ensures ClosingLogged(t.events, CloseAll(t, stale, q).value.events, r, r in stale, q)
  {
    if stale != [] {
      var before, last := stale[..|stale| - 1], stale[|stale| - 1];
      assert stale == before + [last];
      AllLogged(t, before, q, r);
      OneLogged(CloseAll(t, before, q).value, CloseAll(t, stale, q).value, last, q);
      if last == r { assert r !in before; }
    }
  }

  lemma {:induction false} ClaimAllLogs(stored: Table<Source>, t: Tables, sources: seq<Source>, now: Time)
    requires ClaimAll(stored, t, sources, now).Ok?
    ensures ClaimAll(stored, t, sources, now).value.events == t.events
  {
    if sources != [] { ClaimAllLogs(stored, t, sources[..|sources| - 1], now); }
  }

  predicate StaleFor(r: Incident, s: Source) {
    r.state == Open && r.sourceId == s.sourceId && r.generation != s.generation
  }

  lemma RowClosed(t: Tables, u: Tables, q: Request, closed: seq<Id>, retired: Option<Id>, k: Id)
    requires RebaselinedAs(t, u, q, closed, retired) && k in t.incidents.rows
    ensures var r := t.incidents.rows[k];
            k in u.incidents.rows && if StaleFor(r, q.source) then ClosedAs(r, u.incidents.rows[k], q) else u.incidents.rows[k] == r
  {
  }

  lemma ClosedLogs(t: Tables, u: Tables, v: Tables, q: Request, r: Incident)
    requires IncidentsKeyed(t.incidents, t.sources) && t.incidents.Get(r.failureId) == Some(r)
    requires CloseAll(t, StaleIncidents(t, q.source), q) == Ok(u)
    requires Claim(u, q.projectId, SourcesWith(u.sources, u.sources.order, q.source), q.now) == Ok(v)
    ensures ClosingLogged(t.events, v.events, r, StaleFor(r, q.source), q)
  {
    var stale := StaleIncidents(t, q.source);
    StaleAre(t, q.source);
    assert r in stale <==> StaleFor(r, q.source);
    AllLogged(t, stale, q, r);
    ClaimAllLogs(u.sources, u, SourcesWith(u.sources, u.sources.order, q.source), q.now);
  }

  lemma RebaselineLogs(t: Tables, q: Request, r: Incident)
    requires IncidentsKeyed(t.incidents, t.sources) && t.incidents.Get(r.failureId) == Some(r) && Rebaseline(t, q).Ok?
    ensures ClosingLogged(t.events, Rebaseline(t, q).value.0.events, r, StaleFor(r, q.source), q)
  {
    if StaleIncidents(t, q.source) == [] && StaleBoundary(t, q.source).None? {
      StaleAre(t, q.source);
      assert !IsStale(r, q.source);
    } else {
      ClosedLogs(t, CloseAll(t, StaleIncidents(t, q.source), q).value, Rebaseline(t, q).value.0, q, r);
    }
  }

  /** A rebaseline closes exactly the stale incidents, each as `ClosedAs` says, and logs each closing and nothing else. */
  lemma RebaselineCloses(t: Tables, q: Request, k: Id)
    requires Sound(t) && t.projectId == q.projectId && Rebaseline(t, q).Ok? && k in t.incidents.rows
    ensures var u, r := Rebaseline(t, q).value.0, t.incidents.rows[k];
            && k in u.incidents.rows && (if StaleFor(r, q.source) then ClosedAs(r, u.incidents.rows[k], q) else u.incidents.rows[k] == r)
            && ClosingLogged(t.events, u.events, r, StaleFor(r, q.source), q)
  {
    var u, r := Rebaseline(t, q).value.0, t.incidents.rows[k];
    assert ClosingLogged(t.events, u.events, r, StaleFor(r, q.source), q) by { RebaselineLogs(t, q, r); }
    match Rebaseline(t, q).value.1
    case Nothing =>
      assert u == t && !StaleFor(r, q.source) by { RebaselineExact(t, q); }
    case Rebaselined(closed, retired) =>
      assert RebaselinedAs(t, u, q, closed, retired) by { RebaselineExact(t, q); }
      RowClosed(t, u, q, closed, retired, k);
  }
}
