/**
 * What a run of journal calls leaves behind, read off the calls themselves:
 * the boundary in force covers every advance since the last retirement, and
 * no revision is ever used twice.
 */
module JournalHistory {
  import opened Wrappers
  import opened JournalSpec
  import opened JournalSafety
  import opened JournalClaims

  // ----- the boundary in force -----------------------------------------------------

  /** What one accepted call does to the source's list of covered incidents. */
  function CoveredAfter(t: Tables, c: Call, covered: seq<Id>, source: Id): seq<Id> {
    if Step(t, c).Err? then covered
    else
      match c
      case CallPrepareAdvance(a) =>
        if a.failureId in t.incidents.rows && t.incidents.rows[a.failureId].sourceId == source && a.failureId !in covered
        then covered + [a.failureId] else covered
      case CallRetireBoundary(id, _, _, _) =>
        if id in t.boundaries.rows && t.boundaries.rows[id].sourceId == source then [] else covered
      case CallClaim(_, sources, _) =>
        if source in t.sources.rows && exists s <- sources :: s.sourceId == source && s.generation != t.sources.rows[source].generation
        then [] else covered
      case _ => covered
  }

  /**
   * The incidents advanced past since the source's boundary last retired, each once,
   * in the order first advanced. No boundary is consulted.
   */
  function Covered(t: Tables, calls: seq<Call>, source: Id): seq<Id> {
    if calls == [] then []
    else
      var before := calls[..|calls| - 1];
      CoveredAfter(Run(t, before), calls[|calls| - 1], Covered(t, before, source), source)
  }

  predicate Covers(t: Tables, source: Id, covered: seq<Id>) {
    match BoundaryOf(t, source)
    case Some(b) => b.failureIds == covered && covered != []
    case None => covered == []
  }

  /** One row in force per source: what a lookup by source relies on. */
  predicate Unique(t: Tables) {
    BoundariesKeyed(t.boundaries, t.sources) && OneInForce(t.boundaries.rows)
  }

  /** The query's answer does not change when the source's rows in force do not. */
  lemma SameBoundary(t: Tables, u: Tables, source: Id)
    requires Unique(t) && Unique(u)
    requires forall k <- t.boundaries.rows :: InForceAt(t.boundaries.rows[k], source) ==> k in u.boundaries.rows && u.boundaries.rows[k] == t.boundaries.rows[k]
    requires forall k <- u.boundaries.rows :: InForceAt(u.boundaries.rows[k], source) ==> k in t.boundaries.rows && u.boundaries.rows[k] == t.boundaries.rows[k]
    ensures BoundaryOf(t, source) == BoundaryOf(u, source)
  {
    BoundaryOfIs(t, source);
    BoundaryOfIs(u, source);
  }

  /** The boundary rows after an accepted advance. */
  predicate SupersededBy(t: Tables, u: Tables, n: Boundary) {
    && n.boundaryId !in t.boundaries.rows
    && u.boundaries.rows.Keys == t.boundaries.rows.Keys + {n.boundaryId}
    && u.boundaries.rows[n.boundaryId] == n
    && forall k <- t.boundaries.rows ::
         u.boundaries.rows[k] == if InForceAt(t.boundaries.rows[k], n.sourceId)
                                 then EndBoundary(t.boundaries.rows[k], Retirement(BySuperseded, None, None), n.createdAt)
                                 else t.boundaries.rows[k]
  }

  lemma LookupAfterAdvance(t: Tables, u: Tables, n: Boundary, source: Id)
    requires Unique(t) && Unique(u) && SupersededBy(t, u, n) && n.state == InForce
    ensures BoundaryOf(u, source) == if source == n.sourceId then Some(n) else BoundaryOf(t, source)
  {
    if source == n.sourceId {
      BoundaryOfIs(u, source);
    } else {
      SameBoundary(t, u, source);
    }
  }

  lemma AdvanceRows(t: Tables, a: Advance)
    requires BoundariesKeyed(t.boundaries, t.sources) && OneInForce(t.boundaries.rows) && Admissible(t, a)
    ensures var r := t.incidents.rows[a.failureId];
            SupersededBy(t, Installed(t, a), NextBoundary(a, r, BoundaryOf(t, r.sourceId)))
  {
    SupersedingRows(t, t.incidents.rows[a.failureId].sourceId, a.at);
  }

  /** The boundary and incident rows after an accepted advance, and what else may have changed. */
  lemma AdvanceShape(t: Tables, a: Advance)
    requires Sound(t) && PrepareAdvance(t, a).Ok?
    ensures var u := PrepareAdvance(t, a).value; var r := t.incidents.rows[a.failureId];
            && u == t.(incidents := u.incidents, boundaries := u.boundaries, circuits := u.circuits, events := u.events)
            && SupersededBy(t, u, NextBoundary(a, r, BoundaryOf(t, r.sourceId)))
            && u.incidents.rows == t.incidents.rows[a.failureId := AdvancedIncident(a, r)]
  {
    var r := t.incidents.rows[a.failureId];
    var v := Installed(t, a);
    assert PrepareAdvance(t, a) == AdvanceCounted(v, r, a.at) by { AdvanceIs(t, a); }
    assert SupersededBy(t, v, NextBoundary(a, r, BoundaryOf(t, r.sourceId))) by { AdvanceRows(t, a); }
    assert v == t.(incidents := v.incidents, boundaries := v.boundaries, events := v.events) by { SupersedingRows(t, r.sourceId, a.at); }
  }

  /** The source's boundary in force after an accepted advance. */
  predicate AdvanceLookup(t: Tables, a: Advance, source: Id)
    requires PrepareAdvance(t, a).Ok?
  {
    var r := t.incidents.rows[a.failureId];
    BoundaryOf(PrepareAdvance(t, a).value, source) == if source == r.sourceId then Some(NextBoundary(a, r, BoundaryOf(t, r.sourceId))) else BoundaryOf(t, source)
  }

  lemma AdvanceLooksUp(t: Tables, a: Advance, source: Id)
    requires Sound(t) && PrepareAdvance(t, a).Ok?
    ensures AdvanceLookup(t, a, source)
  {
    var r := t.incidents.rows[a.failureId];
    var v := Installed(t, a);
    assert PrepareAdvance(t, a) == AdvanceCounted(v, r, a.at) by { AdvanceIs(t, a); }
    assert SupersededBy(t, v, NextBoundary(a, r, BoundaryOf(t, r.sourceId))) by { AdvanceRows(t, a); }
    assert Unique(v) by { InstalledSound(t, a); }
    LookupAfterAdvance(t, v, NextBoundary(a, r, BoundaryOf(t, r.sourceId)), source);
  }

  lemma AdvanceCovers(t: Tables, a: Advance, source: Id, covered: seq<Id>)
    requires Sound(t) && Covers(t, source, covered) && PrepareAdvance(t, a).Ok?
    ensures Covers(PrepareAdvance(t, a).value, source, CoveredAfter(t, CallPrepareAdvance(a), covered, source))
  {
    assert t.incidents.rows[a.failureId].failureId == a.failureId && AdvanceLookup(t, a, source) by { AdvanceLooksUp(t, a, source); }
    CoversNext(t, a, source, covered);
  }

  lemma CoversNext(t: Tables, a: Advance, source: Id, covered: seq<Id>)
    requires PrepareAdvance(t, a).Ok? && t.incidents.rows[a.failureId].failureId == a.failureId
    requires Covers(t, source, covered) && AdvanceLookup(t, a, source)
    ensures Covers(PrepareAdvance(t, a).value, source, CoveredAfter(t, CallPrepareAdvance(a), covered, source))
  {
    assert Step(t, CallPrepareAdvance(a)) == PrepareAdvance(t, a);
  }

  lemma ClaimLookup(t: Tables, u: Tables, now: Time, source: Id)
    requires Unique(t) && Unique(u) && ClaimedAs(t, u, now) && Current(t.boundaries.rows, t.sources.rows) && t.sources.rows.Keys <= u.sources.rows.Keys
    ensures BoundaryOf(u, source) == if source in t.sources.rows && u.sources.rows[source].generation == t.sources.rows[source].generation
                                     then BoundaryOf(t, source) else None
  {
    BoundaryOfIs(t, source);
    BoundaryOfIs(u, source);
    if source in t.sources.rows && u.sources.rows[source].generation == t.sources.rows[source].generation {
      SameBoundary(t, u, source);
    }
  }

  lemma ClaimCovers(t: Tables, projectId: Id, sources: seq<Source>, now: Time, source: Id, covered: seq<Id>)
    requires Sound(t) && Covers(t, source, covered) && Claim(t, projectId, sources, now).Ok?
    ensures Covers(Claim(t, projectId, sources, now).value, source, CoveredAfter(t, CallClaim(projectId, sources, now), covered, source))
  {
    var u := Claim(t, projectId, sources, now).value;
    ClaimExact(t, projectId, sources, now);
    RecordedIs(t.sources.rows, sources);
    assert Unique(u) by { ClaimKeeps(t, projectId, sources, now); }
    ClaimLookup(t, u, now, source);
    assert source !in t.sources.rows ==> BoundaryOf(t, source).None? by { BoundaryOfIs(t, source); }
  }

  lemma EndedElsewhere(t: Tables, b: Boundary, e: Boundary, source: Id)
    requires Unique(t) && b.boundaryId in t.boundaries.rows && t.boundaries.rows[b.boundaryId] == b && Unique(SaveBoundary(t, e))
    requires e.boundaryId == b.boundaryId && e.sourceId == b.sourceId != source
    ensures BoundaryOf(SaveBoundary(t, e), source) == BoundaryOf(t, source)
  {
    SameBoundary(t, SaveBoundary(t, e), source);
  }

  lemma RetireLookup(t: Tables, id: Id, retirement: Retirement, at: Time, source: Id)
    requires Sound(t) && id in t.boundaries.rows && t.boundaries.rows[id].state == InForce
    ensures var b := t.boundaries.rows[id];
            BoundaryOf(SaveBoundary(t, EndBoundary(b, retirement, at)), source) == if source == b.sourceId then None else BoundaryOf(t, source)
  {
    var b := t.boundaries.rows[id];
    EndedKeeps(t, id, retirement, at);
    if source != b.sourceId { EndedElsewhere(t, b, EndBoundary(b, retirement, at), source); }
  }

  lemma RetireCovers(t: Tables, id: Id, expected: nat, retirement: Retirement, at: Time, source: Id, covered: seq<Id>)
    requires Sound(t) && Covers(t, source, covered) && RetireBoundary(t, id, expected, retirement, at).Ok?
    ensures Covers(RetireBoundary(t, id, expected, retirement, at).value, source,
                   CoveredAfter(t, CallRetireBoundary(id, expected, retirement, at), covered, source))
  {
    var u, b := RetireBoundary(t, id, expected, retirement, at).value, t.boundaries.rows[id];
    assert Step(t, CallRetireBoundary(id, expected, retirement, at)).Ok?;
    assert BoundaryOf(u, source) == if source == b.sourceId then None else BoundaryOf(t, source) by {
      RetireLookup(t, id, retirement, at, source);
    }
  }

  lemma StepCovers(t: Tables, c: Call, source: Id, covered: seq<Id>)
    requires Sound(t) && Covers(t, source, covered)
    ensures Covers(After(t, c), source, CoveredAfter(t, c, covered, source))
  {
    if Step(t, c).Ok? {
      match c
      case CallClaim(projectId, sources, now) => ClaimCovers(t, projectId, sources, now, source, covered);
      case CallPrepareAdvance(a) => AdvanceCovers(t, a, source, covered);
      case CallRetireBoundary(id, expected, retirement, at) => RetireCovers(t, id, expected, retirement, at, source, covered);
      case _ =>
    }
  }

  /**
   * After any run, the source has a boundary in force exactly when some incident was advanced
   * past since the last retirement, and that boundary lists exactly those incidents.
   */
  lemma {:induction false} RunCovers(projectId: Id, calls: seq<Call>, source: Id)
    ensures Covers(Run(Fresh(projectId), calls), source, Covered(Fresh(projectId), calls, source))
  {
    if calls != [] {
      var before := calls[..|calls| - 1];
      RunCovers(projectId, before, source);
      RunKeeps(projectId, before);
      StepCovers(Run(Fresh(projectId), before), calls[|calls| - 1], source, Covered(Fresh(projectId), before, source));
    }
  }

  // ----- optimistic revisions ----------------------------------------------------------

  datatype Row = IncidentRow(failureId: Id) | BoundaryRow(boundaryId: Id) | CircuitRow(source: Id)

  function RevisionOf(t: Tables, row: Row): nat {
    match row
    case IncidentRow(id) => if id in t.incidents.rows then t.incidents.rows[id].revision else 0
    case BoundaryRow(id) => if id in t.boundaries.rows then t.boundaries.rows[id].revision else 0
    case CircuitRow(id) => CircuitOf(t, id).revision
  }

  /** The row a call names a revision of, and the revision it names. */
  function Expects(c: Call): Option<(Row, nat)> {
    match c
    case CallUpdate(id, expected, _, _) => Some((IncidentRow(id), expected))
    case CallPrepareAdvance(a) => Some((IncidentRow(a.failureId), a.expectedRevision))
    case CallRetireBoundary(id, expected, _, _) => Some((BoundaryRow(id), expected))
    case CallUpdateCircuit(source, expected, _) => Some((CircuitRow(source), expected))
    case _ => None
  }

  /** No call lowers a revision, and an accepted call raises the one it names. */
  lemma RevisionsRise(t: Tables, c: Call, row: Row)
    requires Sound(t)
    ensures RevisionOf(t, row) <= RevisionOf(After(t, c), row)
    ensures Step(t, c).Ok? && Expects(c).Some? && Expects(c).value.0 == row ==>
              Expects(c).value.1 == RevisionOf(t, row) < RevisionOf(After(t, c), row)
  {
    if Step(t, c).Ok? {
      match c
      case CallClaim(projectId, sources, now) => ClaimExact(t, projectId, sources, now);
      case CallPrepareAdvance(a) => AdvanceRevisions(t, a, row);
      case CallRetireBoundary(_, _, _, _) => OtherRevisions(t, c, row);
      case CallObserve(_) => OtherRevisions(t, c, row);
      case CallUpdate(_, _, _, _) => OtherRevisions(t, c, row);
      case CallUpdateCircuit(_, _, _) => OtherRevisions(t, c, row);
    }
  }

  lemma OtherRevisions(t: Tables, c: Call, row: Row)
    requires BoundariesKeyed(t.boundaries, t.sources) && !c.CallClaim? && !c.CallPrepareAdvance? && Step(t, c).Ok?
    ensures RevisionOf(t, row) <= RevisionOf(After(t, c), row)
    ensures Expects(c).Some? && Expects(c).value.0 == row ==> Expects(c).value.1 == RevisionOf(t, row) < RevisionOf(After(t, c), row)
  {
  }

  lemma AdvanceRevisions(t: Tables, a: Advance, row: Row)
    requires Sound(t) && PrepareAdvance(t, a).Ok?
    ensures RevisionOf(t, row) <= RevisionOf(PrepareAdvance(t, a).value, row)
    ensures a.expectedRevision == RevisionOf(t, IncidentRow(a.failureId)) < RevisionOf(PrepareAdvance(t, a).value, IncidentRow(a.failureId))
  {
    var u, r := PrepareAdvance(t, a).value, t.incidents.rows[a.failureId];
    assert SupersededBy(t, u, NextBoundary(a, r, BoundaryOf(t, r.sourceId))) && u.incidents.rows == t.incidents.rows[a.failureId := AdvancedIncident(a, r)] by {
      AdvanceShape(t, a);
    }
    assert r.sourceId in u.circuits && u.circuits == t.circuits[r.sourceId := u.circuits[r.sourceId]] && CircuitOf(u, r.sourceId).revision == CircuitOf(t, r.sourceId).revision + 1 by {
      AdvanceCircuits(t, a);
    }
    RowRevisions(t, u, NextBoundary(a, r, BoundaryOf(t, r.sourceId)), r.sourceId, a.failureId, row);
  }

  lemma RowRevisions(t: Tables, u: Tables, n: Boundary, source: Id, id: Id, row: Row)
    requires SupersededBy(t, u, n)
    requires id in t.incidents.rows && id in u.incidents.rows && u.incidents.rows[id].revision == t.incidents.rows[id].revision + 1
    requires u.incidents.rows == t.incidents.rows[id := u.incidents.rows[id]]
    requires source in u.circuits && u.circuits == t.circuits[source := u.circuits[source]]
    requires CircuitOf(u, source).revision == CircuitOf(t, source).revision + 1
    ensures RevisionOf(t, row) <= RevisionOf(u, row)
  {
  }

  /** An accepted advance writes its own source's circuit, at its next revision. */
  lemma AdvanceCircuits(t: Tables, a: Advance)
    requires Sound(t) && PrepareAdvance(t, a).Ok?
    ensures var u, source := PrepareAdvance(t, a).value, t.incidents.rows[a.failureId].sourceId;
            && source in u.circuits && u.circuits == t.circuits[source := u.circuits[source]]
            && CircuitOf(u, source).revision == CircuitOf(t, source).revision + 1
  {
    var r := t.incidents.rows[a.failureId];
    assert PrepareAdvance(t, a) == AdvanceCounted(Installed(t, a), r, a.at) && Installed(t, a).circuits == t.circuits by {
      AdvanceIs(t, a);
      SupersedingRows(t, r.sourceId, a.at);
    }
  }

  lemma {:induction false} RevisionsStay(t: Tables, calls: seq<Call>, row: Row)
    requires Sound(t)
    ensures Sound(Run(t, calls)) && RevisionOf(t, row) <= RevisionOf(Run(t, calls), row)
  {
    if calls != [] {
      RevisionsStay(t, calls[..|calls| - 1], row);
      StepKeeps(Run(t, calls[..|calls| - 1]), calls[|calls| - 1]);
      RevisionsRise(Run(t, calls[..|calls| - 1]), calls[|calls| - 1], row);
    }
  }

  /** Of two calls that name the same revision of the same row, at most one is ever accepted, whatever lies between. */
  lemma NoLostUpdate(t: Tables, first: Call, between: seq<Call>, second: Call)
    requires Sound(t) && Expects(first).Some? && Expects(second) == Expects(first)
    requires Step(t, first).Ok?
    ensures Step(Run(After(t, first), between), second).Err?
  {
    var row := Expects(first).value.0;
    RevisionsRise(t, first, row);
    StepKeeps(t, first);
    RevisionsStay(After(t, first), between, row);
    RevisionsRise(Run(After(t, first), between), second, row);
  }

  // ----- incidents ---------------------------------------------------------------------

  /** The advance of the incident, if there was one, is settled: it holds no boundary in force. */
  predicate Settled(r: Incident) {
    r.state == Resolved || r.progress == Advanced || r.progress == Processed
  }

  lemma {:induction false} NothingBlocks(incidents: map<Id, Incident>, ids: seq<Id>)
    ensures FirstBlocking(incidents, ids).None? <==> forall id <- ids :: id in incidents ==> Settled(incidents[id])
  {
    if ids != [] {
      assert ids == [ids[0]] + ids[1..];
      NothingBlocks(incidents, ids[1..]);
    }
  }

  /** A boundary retires exactly when it is in force at the named revision and every incident it lists is settled. */
  lemma RetireExact(t: Tables, id: Id, expected: nat, retirement: Retirement, at: Time)
    requires Sound(t)
    ensures RetireBoundary(t, id, expected, retirement, at).Ok? <==>
            && id in t.boundaries.rows && t.boundaries.rows[id].state == InForce && t.boundaries.rows[id].revision == expected
            && retirement.mode != BySuperseded
            && forall f <- t.boundaries.rows[id].failureIds :: Settled(t.incidents.rows[f])
  {
    if id in t.boundaries.rows {
      assert ListsIncidents(t.boundaries.rows[id], t.incidents.rows);
      NothingBlocks(t.incidents.rows, t.boundaries.rows[id].failureIds);
    }
  }

  /** What makes an incident that incident: a redelivered record never becomes another one. */
  predicate SameIncident(r: Incident, s: Incident) {
    && s.failureId == r.failureId && s.sourceId == r.sourceId && s.generation == r.generation
    && s.firstObservedAt == r.firstObservedAt && s.observations >= r.observations
  }

  predicate IncidentsRemain(t: Tables, u: Tables) {
    forall k <- t.incidents.rows :: k in u.incidents.rows && SameIncident(t.incidents.rows[k], u.incidents.rows[k])
  }

  lemma StepRemains(t: Tables, c: Call)
    requires Sound(t)
    ensures IncidentsRemain(t, After(t, c))
  {
    if Step(t, c).Ok? {
      match c
      case CallClaim(projectId, sources, now) => ClaimExact(t, projectId, sources, now);
      case CallPrepareAdvance(a) => AdvanceShape(t, a);
      case _ => OthersRemain(t, c);
    }
  }

  lemma OthersRemain(t: Tables, c: Call)
    requires !c.CallClaim? && !c.CallPrepareAdvance?
    ensures IncidentsRemain(t, After(t, c))
  {
  }

  /** No run drops an incident, or turns it into another. */
  lemma {:induction false} RunRemains(t: Tables, calls: seq<Call>)
    requires Sound(t)
    ensures Sound(Run(t, calls)) && IncidentsRemain(t, Run(t, calls))
  {
    if calls != [] {
      var before := calls[..|calls| - 1];
      RunRemains(t, before);
      StepKeeps(Run(t, before), calls[|calls| - 1]);
      StepRemains(Run(t, before), calls[|calls| - 1]);
    }
  }

  /** What one more observation makes of a known incident. */
  predicate ObservedAgain(r: Incident, s: Incident, o: Observation) {
    && s.state == Open && s.observations == r.observations + 1 && s.revision == r.revision + 1
    && s.evidenceHash == r.evidenceHash && s.guard == r.guard && s.boundaryId == r.boundaryId
    && (r.state == Resolved ==> s.progress == Held && s.resolution == None)
    && (r.state == Open ==> s.progress == r.progress)
    && (if Conflicts(r, o) then s.policy == r.policy && s.diagnosis == r.diagnosis else s.policy == o.policy && s.diagnosis == o.diagnosis)
    && (s.recovery == r.recovery || (r.recovery == Denied && s.recovery == RecoveryHeld && r.policy != s.policy && s.policy != QuarantineResync))
  }

  /**
   * An observed incident is open whatever it was: a new one and a resolved one are held; conflicting evidence
   * leaves what was diagnosed and decided, and otherwise the configured policy applies from now on.
   */
  lemma ObservedIsOpen(t: Tables, o: Observation)
    requires Observe(t, o).Ok?
    ensures var u := Observe(t, o).value;
            && o.failureId in u.incidents.rows
            && (match t.incidents.Get(o.failureId)
                case None => u.incidents.rows[o.failureId] == NewIncident(o) && NewIncident(o).state == Open && NewIncident(o).progress == Held
                case Some(r) => ObservedAgain(r, u.incidents.rows[o.failureId], o))
            && forall k <- t.incidents.rows :: k != o.failureId ==> u.incidents.rows[k] == t.incidents.rows[k]
  {
  }
}
