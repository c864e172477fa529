/**
 * What the journal's calls write, field by field, and what a run's boundary in
 * force was written from.
 */
module JournalWrites {
  import opened Wrappers
  import opened JournalSpec
  import opened JournalSafety
  import opened JournalClaims
  import opened JournalHistory

  // ----- prepareAdvance --------------------------------------------------------------

  /** The boundary an advance of incident r installs after `prior`: the guard's context, and every incident covered so far. */
  predicate InstalledAs(b: Boundary, a: Advance, r: Incident, prior: Option<Boundary>) {
    && b.boundaryId == a.boundaryId && b.sourceId == r.sourceId && b.generation == r.generation
    && a.context == Some(b.context)
    && b.revision == 1 && b.state == InForce && b.createdAt == a.at && b.retiredAt.None? && b.retirement.None?
    && match prior
       case None => b.supersedes.None? && b.failureIds == [a.failureId]
       case Some(p) =>
         && b.supersedes == Some(p.boundaryId)
         && b.failureIds == p.failureIds + (if a.failureId in p.failureIds then [] else [a.failureId])
  }

  /** A boundary that another one replaced: it lists nothing, and nothing else of it is lost. */
  predicate ReplacedAs(b: Boundary, after: Boundary, at: Time) {
    after == b.(state := Superseded, failureIds := [], revision := b.revision + 1, retiredAt := Some(at),
                retirement := Some(Retirement(BySuperseded, None, None)))
  }

  predicate AdvancedAs(r: Incident, after: Incident, a: Advance) {
    after == r.(progress := AdvancePending, recovery := BoundaryInForce, guard := Some(a.guard), boundaryId := Some(a.boundaryId),
                revision := a.expectedRevision + 1, updatedAt := a.at)
  }

  /** Everything an accepted advance does to the boundaries and incidents. */
  predicate AdvanceWritten(t: Tables, u: Tables, a: Advance)
    requires a.failureId in t.incidents.rows
  {
    var r := t.incidents.rows[a.failureId];
    && u == t.(incidents := u.incidents, boundaries := u.boundaries, circuits := u.circuits, events := u.events)
    && a.boundaryId !in t.boundaries.rows && u.boundaries.rows.Keys == t.boundaries.rows.Keys + {a.boundaryId}
    && InstalledAs(u.boundaries.rows[a.boundaryId], a, r, BoundaryOf(t, r.sourceId))
    && (forall k <- t.boundaries.rows ::
          if t.boundaries.rows[k].state == InForce && t.boundaries.rows[k].sourceId == r.sourceId
          then ReplacedAs(t.boundaries.rows[k], u.boundaries.rows[k], a.at) else u.boundaries.rows[k] == t.boundaries.rows[k])
    && u.incidents.rows.Keys == t.incidents.rows.Keys && AdvancedAs(r, u.incidents.rows[a.failureId], a)
    && forall k <- t.incidents.rows :: k != a.failureId ==> u.incidents.rows[k] == t.incidents.rows[k]
  }

  lemma AdvanceWrites(t: Tables, u: Tables, a: Advance)
    requires a.context.Some? && a.failureId in t.incidents.rows && u == t.(incidents := u.incidents, boundaries := u.boundaries, circuits := u.circuits, events := u.events)
    requires var r := t.incidents.rows[a.failureId];
             && r.failureId == a.failureId && r.revision == a.expectedRevision
             && SupersededBy(t, u, NextBoundary(a, r, BoundaryOf(t, r.sourceId)))
             && u.incidents.rows == t.incidents.rows[a.failureId := AdvancedIncident(a, r)]
    ensures AdvanceWritten(t, u, a)
  {
    var r := t.incidents.rows[a.failureId];
    assert forall p: seq<Id> :: p + [] == p;
    assert InstalledAs(u.boundaries.rows[a.boundaryId], a, r, BoundaryOf(t, r.sourceId));
  }

  /**
   * An accepted advance puts one boundary in force, with the context the guard gave: it links to the
   * one it replaces, lists what that one listed and then this incident, and the replaced one lists
   * nothing any more. The incident awaits the advance under the new boundary. No other source's
   * boundary, and no other incident, changes.
   */
  lemma AdvanceSupersedes(t: Tables, a: Advance)
    requires Sound(t) && PrepareAdvance(t, a).Ok?
    ensures var u := PrepareAdvance(t, a).value;
            && AdvanceWritten(t, u, a)
            && forall source: Id ::
                 BoundaryOf(u, source) ==
                 if source == t.incidents.rows[a.failureId].sourceId then Some(u.boundaries.rows[a.boundaryId]) else BoundaryOf(t, source)
  {
    var u := PrepareAdvance(t, a).value;
    assert AdvanceWritten(t, u, a) by {
      AdvanceShape(t, a);
      AdvanceWrites(t, u, a);
    }
    forall source: Id
      ensures BoundaryOf(u, source) ==
              if source == t.incidents.rows[a.failureId].sourceId then Some(u.boundaries.rows[a.boundaryId]) else BoundaryOf(t, source) {
      AdvanceLooksUp(t, a, source);
      assert u.boundaries.rows[a.boundaryId] == NextBoundary(a, t.incidents.rows[a.failureId], BoundaryOf(t, t.incidents.rows[a.failureId].sourceId)) by { AdvanceShape(t, a); }
    }
  }

  /** The boundary the guard carried forward is the one in force. */
  predicate IsPrior(boundaries: map<Id, Boundary>, source: Id, prior: Option<Id>) {
    match prior
    case None => forall k <- boundaries :: !InForceAt(boundaries[k], source)
    case Some(p) => p in boundaries && InForceAt(boundaries[p], source)
  }

  predicate AdvanceFits(a: Advance) {
    && a.boundaryId != "" && a.context.Some? && |a.context.value| <= 16384
    && (a.guard.reason.Some? ==> |a.guard.reason.value| <= 512) && (a.guard.evidenceRef.Some? ==> |a.guard.evidenceRef.value| <= 512)
  }

  lemma PriorIs(t: Tables, source: Id, prior: Option<Id>)
    requires BoundariesKeyed(t.boundaries, t.sources) && OneInForce(t.boundaries.rows)
    ensures IdOf(BoundaryOf(t, source)) == prior <==> IsPrior(t.boundaries.rows, source, prior)
  {
    BoundaryOfIs(t, source);
  }

  lemma StateRefusalIs(t: Tables, a: Advance)
    requires IncidentsKeyed(t.incidents, t.sources) && BoundariesKeyed(t.boundaries, t.sources) && OneInForce(t.boundaries.rows)
    ensures AdvanceStateRefusal(t, a).None? <==>
            && a.failureId in t.incidents.rows && a.boundaryId !in t.boundaries.rows
            && var r := t.incidents.rows[a.failureId];
               && r.revision == a.expectedRevision && r.state == Open && r.generation == t.sources.rows[r.sourceId].generation
               && IsPrior(t.boundaries.rows, r.sourceId, a.expectedPrior)
  {
    if a.failureId in t.incidents.rows { PriorIs(t, t.incidents.rows[a.failureId].sourceId, a.expectedPrior); }
  }

  /** An advance is accepted exactly when its input fits and the journal still is as the guard saw it. */
  lemma AdvanceAccepted(t: Tables, a: Advance)
    requires Sound(t)
    ensures PrepareAdvance(t, a).Ok? <==>
            && AdvanceFits(a)
            && a.failureId in t.incidents.rows && a.boundaryId !in t.boundaries.rows
            && var r := t.incidents.rows[a.failureId];
               && r.revision == a.expectedRevision && r.state == Open && r.generation == t.sources.rows[r.sourceId].generation
               && IsPrior(t.boundaries.rows, r.sourceId, a.expectedPrior)
  {
    assert PrepareAdvance(t, a).Ok? <==> Admissible(t, a) by {
      if Admissible(t, a) { AdvanceKeeps(t, a); }
    }
    assert AdvanceInputRefusal(a).None? <==> AdvanceFits(a);
    StateRefusalIs(t, a);
  }

  /** What one event adds: the incident's newest 200 are kept, and no other incident's change. */
  ghost predicate Logged(before: seq<Event>, after: seq<Event>, e: Event) {
    && History(after, e.failureId) == Newest(History(before, e.failureId) + [e])
    && forall id: Id :: id != e.failureId ==> History(after, id) == History(before, id)
  }

  lemma EventLogged(t: Tables, e: Event)
    ensures Logged(t.events, WithEvent(t, e).events, e)
  {
    forall id: Id ensures History(WithEvent(t, e).events, id) == if id == e.failureId then Newest(History(t.events, id) + [e]) else History(t.events, id) {
      EventAdded(t, e, id);
    }
  }

  /** It logs the advance, and the source's circuit goes to its next revision; only its list of advances changes besides. */
  lemma AdvanceLogs(t: Tables, a: Advance)
    requires Sound(t) && PrepareAdvance(t, a).Ok?
    ensures var u, source := PrepareAdvance(t, a).value, t.incidents.rows[a.failureId].sourceId;
            && Logged(t.events, u.events, Event(a.failureId, a.at, "advance-pending", a.boundaryId, None))
            && CircuitOf(u, source) == CircuitOf(t, source).(advances := CircuitOf(u, source).advances, revision := CircuitOf(t, source).revision + 1)
            && forall other: Id :: other != source ==> CircuitOf(u, other) == CircuitOf(t, other)
  {
    var r := t.incidents.rows[a.failureId];
    assert PrepareAdvance(t, a) == AdvanceCounted(Installed(t, a), r, a.at) by { AdvanceIs(t, a); }
    InstalledLogs(t, a);
  }

  lemma InstalledLogs(t: Tables, a: Advance)
    requires BoundariesKeyed(t.boundaries, t.sources) && OneInForce(t.boundaries.rows) && Admissible(t, a)
    ensures Logged(t.events, Installed(t, a).events, Event(a.failureId, a.at, "advance-pending", a.boundaryId, None)) && Installed(t, a).circuits == t.circuits
  {
    var r := t.incidents.rows[a.failureId];
    var n, w := NextBoundary(a, r, BoundaryOf(t, r.sourceId)), Superseding(t, BoundaryOf(t, r.sourceId), a.at);
    assert w.events == t.events && w.circuits == t.circuits by { SupersedingRows(t, r.sourceId, a.at); }
    EventLogged(w.(boundaries := w.boundaries.Insert(a.boundaryId, n), incidents := w.incidents.Update(a.failureId, AdvancedIncident(a, r))), AdvanceEvent(a));
  }

  // ----- the other calls -----------------------------------------------------------------

  /** An accepted retirement ends the boundary and nothing else. */
  lemma RetireWrites(t: Tables, id: Id, expected: nat, retirement: Retirement, at: Time)
    requires BoundariesKeyed(t.boundaries, t.sources) && RetireBoundary(t, id, expected, retirement, at).Ok?
    ensures var u, b := RetireBoundary(t, id, expected, retirement, at).value, t.boundaries.rows[id];
            && u == t.(boundaries := Table(t.boundaries.rows[id := u.boundaries.rows[id]], t.boundaries.order))
            && u.boundaries.rows[id] == b.(state := Retired, revision := expected + 1, retiredAt := Some(at), retirement := Some(retirement))
  {
  }

  /** An accepted claim leaves a boundary as it is, or retires it when its source is now recorded at another generation. */
  lemma ClaimRetires(t: Tables, projectId: Id, sources: seq<Source>, now: Time, k: Id)
    requires Sound(t) && Claim(t, projectId, sources, now).Ok? && k in t.boundaries.rows
    ensures var u, b := Claim(t, projectId, sources, now).value, t.boundaries.rows[k];
            && k in u.boundaries.rows && b.sourceId in u.sources.rows
            && var to := u.sources.rows[b.sourceId].generation;
               u.boundaries.rows[k] ==
               if b.state == InForce && b.generation != to
               then b.(state := Retired, revision := b.revision + 1, retiredAt := Some(now),
                       retirement := Some(Retirement(ByGeneration, Some("Source " + b.sourceId + " changed from generation " + b.generation + " to " + to + "."), None)))
               else b
  {
    ClaimExact(t, projectId, sources, now);
    RecordedIs(t.sources.rows, sources);
  }

  /** The field as the transition names it, or as it was. */
  predicate Changed<T(==)>(change: Option<T>, before: T, after: T) {
    match change
    case None => after == before
    case Some(value) => after == value
  }

  /** An accepted transition changes the fields it names, logs its event, and changes nothing else. */
  lemma UpdateWrites(t: Tables, id: Id, expected: nat, p: Patch, e: Event)
    requires Update(t, id, expected, p, e).Ok?
    ensures id in t.incidents.rows && t.incidents.rows[id].revision == expected
    ensures var u, r := Update(t, id, expected, p, e).value, t.incidents.rows[id];
            && id in u.incidents.rows && u == t.(incidents := Table(t.incidents.rows[id := u.incidents.rows[id]], t.incidents.order), events := u.events)
            && var s := u.incidents.rows[id];
               && Changed(p.progress, r.progress, s.progress) && Changed(p.recovery, r.recovery, s.recovery) && Changed(p.state, r.state, s.state)
               && Changed(p.resolution, r.resolution, s.resolution) && Changed(p.guard, r.guard, s.guard)
               && Changed(p.evidenceHash, r.evidenceHash, s.evidenceHash) && Changed(p.diagnosis, r.diagnosis.text, s.diagnosis.text)
               && s.revision == expected + 1 && s.updatedAt == e.at
               && s == r.(progress := s.progress, recovery := s.recovery, state := s.state, resolution := s.resolution, guard := s.guard,
                          evidenceHash := s.evidenceHash, diagnosis := r.diagnosis.(text := s.diagnosis.text), revision := s.revision, updatedAt := s.updatedAt)
               && Logged(t.events, u.events, e.(failureId := id))
  {
    var x := t.(incidents := t.incidents.Update(id, Patched(t.incidents.rows[id], p, e.at)));
    EventLogged(x, e.(failureId := id));
  }

  /** Both observations carry evidence, and it differs. */
  predicate Disagree(known: string, seen: string) {
    known != "" && seen != "" && known != seen
  }

  /** A first observation is held and open, with everything it says. */
  predicate FirstSeen(r: Incident, o: Observation) {
    && r.failureId == o.failureId && r.sourceId == o.sourceId && r.generation == o.generation && r.evidenceHash == o.evidenceHash
    && r.diagnosis == o.diagnosis && r.policy == o.policy && r.firstObservedAt == o.observedAt && r.lastObservedAt == o.observedAt
    && r.observations == 1 && r.revision == 1 && r.updatedAt == o.observedAt
    && r.progress == Held && r.recovery == NotApplicable && r.state == Open && r.resolution.None? && r.guard.None? && r.boundaryId.None?
  }

  /** Another observation reopens and holds what was resolved; unless its evidence conflicts, its diagnosis and policy count. */
  predicate SeenAgain(r: Incident, s: Incident, o: Observation) {
    var conflict := Disagree(r.evidenceHash, o.evidenceHash);
    && s == r.(revision := r.revision + 1, lastObservedAt := o.observedAt, observations := r.observations + 1, updatedAt := o.observedAt,
               state := Open, resolution := if r.state == Resolved then None else r.resolution, progress := if r.state == Resolved then Held else r.progress,
               diagnosis := if conflict then r.diagnosis else o.diagnosis, policy := if conflict then r.policy else o.policy, recovery := s.recovery)
    && s.recovery == if !conflict && r.recovery == Denied && r.policy != o.policy && o.policy != QuarantineResync then RecoveryHeld else r.recovery
  }

  /** An observation is refused only when the incident is new and its source unknown; otherwise this is all it does. */
  lemma ObserveWrites(t: Tables, o: Observation)
    ensures Observe(t, o).Ok? <==> o.failureId in t.incidents.rows || o.sourceId in t.sources.rows
    ensures Observe(t, o).Ok? ==>
              var u := Observe(t, o).value;
              && u == t.(incidents := u.incidents, events := u.events)
              && o.failureId in u.incidents.rows && u.incidents.rows == t.incidents.rows[o.failureId := u.incidents.rows[o.failureId]]
              && u.incidents.order == t.incidents.order + (if o.failureId in t.incidents.rows then [] else [o.failureId])
              && (match t.incidents.Get(o.failureId)
                  case None => FirstSeen(u.incidents.rows[o.failureId], o)
                  case Some(r) => SeenAgain(r, u.incidents.rows[o.failureId], o))
  {
    assert t.incidents.order + [] == t.incidents.order;
  }

  /** Every observation is logged, by its class or as conflicting. */
  lemma ObserveLogs(t: Tables, o: Observation)
    requires Observe(t, o).Ok?
    ensures Logged(t.events, Observe(t, o).value.events,
                   Event(o.failureId, o.observedAt, "detected",
                         if o.failureId in t.incidents.rows && Disagree(t.incidents.rows[o.failureId].evidenceHash, o.evidenceHash) then "evidence-conflict"
                         else o.diagnosis.failureClass, None))
  {
    var r := t.incidents.Get(o.failureId);
    var x := if r.Some? then t.(incidents := t.incidents.Update(o.failureId, Observed(r.value, o))) else t.(incidents := t.incidents.Insert(o.failureId, NewIncident(o)));
    EventLogged(x, ObservedEvent(r, o));
  }

  /** A circuit is replaced at the revision it was read at; its list keeps its newest 20. */
  lemma UpdateCircuitWrites(t: Tables, source: Id, expected: nat, next: Circuit)
    ensures UpdateCircuit(t, source, expected, next).Ok? <==> CircuitOf(t, source).revision == expected && source in t.sources.rows
    ensures UpdateCircuit(t, source, expected, next).Ok? ==>
              var u := UpdateCircuit(t, source, expected, next).value;
              && u == t.(circuits := t.circuits[source := CircuitOf(u, source)])
              && CircuitOf(u, source) == next.(advances := CircuitOf(u, source).advances, revision := expected + 1)
              && |CircuitOf(u, source).advances| == (if |next.advances| < 20 then |next.advances| else 20)
              && CircuitOf(u, source).advances == next.advances[|next.advances| - |CircuitOf(u, source).advances|..]
  {
    assert next.advances[0..] == next.advances;
  }

  // ----- the boundary in force, over runs ------------------------------------------------

  /** The source's last accepted advance. No boundary is consulted. */
  function LastAdvance(t: Tables, calls: seq<Call>, source: Id): Option<Advance> {
    if calls == [] then None
    else
      var before, c := calls[..|calls| - 1], calls[|calls| - 1];
      var u := Run(t, before);
      if c.CallPrepareAdvance? && Step(u, c).Ok? && u.incidents.rows[c.advance.failureId].sourceId == source then Some(c.advance)
      else LastAdvance(t, before, source)
  }

  /** The boundary in force is the one that advance installed, with the context its guard gave. */
  predicate FromAdvance(t: Tables, source: Id, last: Option<Advance>) {
    match BoundaryOf(t, source)
    case None => true
    case Some(b) =>
      && last.Some? && b.boundaryId == last.value.boundaryId && Some(b.context) == last.value.context
      && b.createdAt == last.value.at && b.supersedes == last.value.expectedPrior && b.revision == 1
  }

  /** A call other than an advance leaves the source's boundary in force as it is, or leaves none. */
  lemma OthersKeepBoundary(t: Tables, c: Call, source: Id)
    requires Sound(t) && !c.CallPrepareAdvance?
    ensures BoundaryOf(After(t, c), source) == BoundaryOf(t, source) || BoundaryOf(After(t, c), source).None?
  {
    if Step(t, c).Ok? {
      match c
      case CallClaim(projectId, sources, now) =>
        assert Unique(After(t, c)) by { ClaimKeeps(t, projectId, sources, now); }
        ClaimExact(t, projectId, sources, now);
        if !Duplicates(sources) { RecordedIs(t.sources.rows, sources); }
        ClaimLookup(t, After(t, c), now, source);
      case CallRetireBoundary(id, expected, retirement, at) => RetireLookup(t, id, retirement, at, source);
      case _ =>
    }
  }

  lemma AdvanceKeepsFrom(t: Tables, a: Advance, source: Id, last: Option<Advance>)
    requires Sound(t) && PrepareAdvance(t, a).Ok? && FromAdvance(t, source, last)
    ensures FromAdvance(PrepareAdvance(t, a).value, source, if t.incidents.rows[a.failureId].sourceId == source then Some(a) else last)
  {
    AdvanceSupersedes(t, a);
    AdvanceAccepted(t, a);
    PriorIs(t, t.incidents.rows[a.failureId].sourceId, a.expectedPrior);
  }

  /** After any run, the boundary a source has in force carries the context, the ID and the link of its last accepted advance. */
  lemma {:induction false} RunContext(projectId: Id, calls: seq<Call>, source: Id)
    ensures FromAdvance(Run(Fresh(projectId), calls), source, LastAdvance(Fresh(projectId), calls, source))
  {
    if calls != [] {
      var before, c := calls[..|calls| - 1], calls[|calls| - 1];
      var t := Run(Fresh(projectId), before);
      RunContext(projectId, before, source);
      RunKeeps(projectId, before);
      if c.CallPrepareAdvance? && Step(t, c).Ok? {
        AdvanceKeepsFrom(t, c.advance, source, LastAdvance(Fresh(projectId), before, source));
      } else if !c.CallPrepareAdvance? {
        OthersKeepBoundary(t, c, source);
      }
    }
  }
}
