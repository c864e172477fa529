/**
 * Rebaselining a source: its open incidents of earlier generations are closed
 * and its configured generation is recorded, in one transaction.
 */
module JournalRebaseline {
  import opened Wrappers
  import opened JournalSpec
  import opened JournalSafety
  import opened JournalClaims

  /** What the operator asks for: the source as configured, and what to record on each closed incident. */
  datatype Request = Request(projectId: Id, source: Source, reason: string, operationId: Id, at: Time, now: Time)

  datatype Outcome = Nothing | Rebaselined(closed: seq<Id>, retired: Option<Id>)

  predicate IsStale(r: Incident, s: Source) {
    IsOpenAt(r, s.sourceId) && r.generation != s.generation
  }

  function StaleOf(incidents: seq<Incident>, s: Source): seq<Incident> {
    if incidents == [] then []
    else if incidents[0].generation != s.generation then [incidents[0]] + StaleOf(incidents[1..], s)
    else StaleOf(incidents[1..], s)
  }

  /** A retry in flight ends as held, and an advance that was never confirmed stays unconfirmed. */
  function ClosedProgress(p: Progress): Progress {
    match p
    case Retrying => Held
    case AdvancePending => Uncertain
    case _ => p
  }

  function ClosingPatch(r: Incident, s: Source): Patch {
    Patch(Some(ClosedProgress(r.progress)), None, Some(Resolved), Some(Some("rebaselined to generation " + s.generation)), None, None, None)
  }

  function ClosingEvent(r: Incident, q: Request): Event {
    Event(r.failureId, q.at, "operator", "rebaseline from generation " + r.generation + ": " + q.reason, Some(q.operationId))
  }

  function Closed(r: Incident, q: Request): Incident {
    Patched(r, ClosingPatch(r, q.source), q.at)
  }

  function CloseOne(t: Tables, r: Incident, q: Request): Result<Tables, Refusal> {
    Update(t, r.failureId, r.revision, ClosingPatch(r, q.source), ClosingEvent(r, q))
  }

  function CloseAll(t: Tables, stale: seq<Incident>, q: Request): Result<Tables, Refusal> {
    if stale == [] then Ok(t)
    else
      match CloseAll(t, stale[..|stale| - 1], q)
      case Err(e) => Err(e)
      case Ok(u) => CloseOne(u, stale[|stale| - 1], q)
  }

  /** The recorded sources, with s in place of its own row. */
  function SourcesWith(t: Table<Source>, keys: seq<Id>, s: Source): seq<Source> {
    if keys == [] then []
    else if keys[0] in t.rows then [if keys[0] == s.sourceId then s else t.rows[keys[0]]] + SourcesWith(t, keys[1..], s)
    else SourcesWith(t, keys[1..], s)
  }

  function StaleIncidents(t: Tables, s: Source): seq<Incident> {
    StaleOf(OpenIncidents(t, s.sourceId), s)
  }

  function StaleBoundary(t: Tables, s: Source): Option<Id> {
    var b := BoundaryOf(t, s.sourceId);
    if b.Some? && b.value.generation != s.generation then Some(b.value.boundaryId) else None
  }

  function IdsOf(incidents: seq<Incident>): seq<Id> {
    seq(|incidents|, i requires 0 <= i < |incidents| => incidents[i].failureId)
  }

  function Rebaseline(t: Tables, q: Request): Result<(Tables, Outcome), Refusal> {
    var stale := StaleIncidents(t, q.source);
    if stale == [] && StaleBoundary(t, q.source).None? then Ok((t, Nothing))
    else
      match CloseAll(t, stale, q)
      case Err(e) => Err(e)
      case Ok(u) =>
        match Claim(u, q.projectId, SourcesWith(u.sources, u.sources.order, q.source), q.now)
        case Err(e) => Err(e)
        case Ok(v) => Ok((v, Rebaselined(IdsOf(stale), StaleBoundary(t, q.source))))
  }

  // ----- the incidents closed -------------------------------------------------------

  predicate DistinctIncidents(incidents: seq<Incident>) {
    forall i, j :: 0 <= i < j < |incidents| ==> incidents[i].failureId != incidents[j].failureId
  }

  lemma {:induction false} StaleOfIs(t: Table<Incident>, keys: seq<Id>, s: Source)
    requires forall k <- t.rows :: t.rows[k].failureId == k
    requires forall i, j :: 0 <= i < j < |keys| ==> keys[i] != keys[j]
    ensures var stale := StaleOf(OpenOf(t, keys, s.sourceId), s);
            && DistinctIncidents(stale)
            && forall r :: r in stale <==> r.failureId in keys && t.Get(r.failureId) == Some(r) && IsStale(r, s)
  {
    if keys != [] {
      assert keys == [keys[0]] + keys[1..];
      StaleOfIs(t, keys[1..], s);
      var rest := OpenOf(t, keys[1..], s.sourceId);
      if keys[0] in t.rows && IsOpenAt(t.rows[keys[0]], s.sourceId) {
        var r := t.rows[keys[0]];
        assert OpenOf(t, keys, s.sourceId) == [r] + rest;
        assert ([r] + rest)[1..] == rest;
        assert forall x <- StaleOf(rest, s) :: x.failureId in keys[1..];
      }
    }
  }

  lemma StaleAre(t: Tables, s: Source)
    requires IncidentsKeyed(t.incidents, t.sources)
    ensures DistinctIncidents(StaleIncidents(t, s))
    ensures forall r :: r in StaleIncidents(t, s) <==> t.incidents.Get(r.failureId) == Some(r) && IsStale(r, s)
  {
    StaleOfIs(t.incidents, t.incidents.order, s);
  }

  /** u is t with the listed incidents closed. */
  predicate ClosedIn(t: Tables, u: Tables, stale: seq<Incident>, q: Request) {
    && u == t.(incidents := u.incidents, events := u.events)
    && u.incidents.order == t.incidents.order && u.incidents.rows.Keys == t.incidents.rows.Keys
    && forall k <- t.incidents.rows :: u.incidents.rows[k] == if t.incidents.rows[k] in stale then Closed(t.incidents.rows[k], q) else t.incidents.rows[k]
  }

  predicate Keyed(i: map<Id, Incident>) {
    forall k <- i :: i[k].failureId == k
  }

  /** Closing an incident at its revision replaces it, adds an event, and touches nothing else. */
  lemma CloseOneShape(u: Tables, r: Incident, q: Request)
    requires u.incidents.Get(r.failureId) == Some(r)
    ensures var c := CloseOne(u, r, q);
            c.Ok? && c.value == u.(incidents := u.incidents.Update(r.failureId, Closed(r, q)), events := c.value.events)
  {
  }

  lemma CloseOneIs(t: Tables, u: Tables, stale: seq<Incident>, r: Incident, q: Request)
    requires Keyed(t.incidents.rows) && ClosedIn(t, u, stale, q) && t.incidents.Get(r.failureId) == Some(r) && r !in stale
    ensures CloseOne(u, r, q).Ok? && ClosedIn(t, CloseOne(u, r, q).value, stale + [r], q)
  {
    assert u.incidents.rows[r.failureId] == r;
    CloseOneShape(u, r, q);
    forall k <- t.incidents.rows
      ensures t.incidents.rows[k] in stale + [r] <==> t.incidents.rows[k] in stale || k == r.failureId {
      assert t.incidents.rows[k].failureId == k;
    }
  }

  lemma {:induction false} CloseAllIs(t: Tables, stale: seq<Incident>, q: Request)
    requires Keyed(t.incidents.rows) && DistinctIncidents(stale) && forall r <- stale :: t.incidents.Get(r.failureId) == Some(r)
    ensures CloseAll(t, stale, q).Ok? && ClosedIn(t, CloseAll(t, stale, q).value, stale, q)
  {
    if stale != [] {
      var before, r := stale[..|stale| - 1], stale[|stale| - 1];
      assert stale == before + [r];
      CloseAllIs(t, before, q);
      assert r !in before;
      CloseOneIs(t, CloseAll(t, before, q).value, before, r, q);
    }
  }

  lemma {:induction false} CloseAllKeeps(t: Tables, stale: seq<Incident>, q: Request)
    requires Sound(t) && CloseAll(t, stale, q).Ok?
    ensures Sound(CloseAll(t, stale, q).value)
  {
    if stale != [] {
      var before, r := stale[..|stale| - 1], stale[|stale| - 1];
      CloseAllKeeps(t, before, q);
      UpdateKeeps(CloseAll(t, before, q).value, r.failureId, r.revision, ClosingPatch(r, q.source), ClosingEvent(r, q));
    }
  }

  // ----- the sources claimed ----------------------------------------------------------

  function RowWith(t: map<Id, Source>, id: Id, s: Source): Source
    requires id in t
  {
    if id == s.sourceId then s else t[id]
  }

  lemma {:induction false} SourcesWithAre(t: map<Id, Source>, table: Table<Source>, keys: seq<Id>, s: Source)
    requires t == table.rows && forall k <- t :: t[k].sourceId == k
    requires forall i, j :: 0 <= i < j < |keys| ==> keys[i] != keys[j]
    ensures var l := SourcesWith(table, keys, s);
            && !Duplicates(l)
            && (forall x <- l :: x.sourceId in keys && x.sourceId in t && x == RowWith(t, x.sourceId, s))
            && (forall id <- keys :: id in t ==> RowWith(t, id, s) in l)
  {
    if keys != [] {
      var rest := SourcesWith(table, keys[1..], s);
      assert keys == [keys[0]] + keys[1..];
      SourcesWithAre(t, table, keys[1..], s);
      if keys[0] in t {
        assert RowWith(t, keys[0], s).sourceId == keys[0];
        assert forall x <- rest :: x.sourceId in keys[1..];
      }
    }
  }

  lemma RecordedFrom(t: map<Id, Source>, l: seq<Source>, m: map<Id, Source>, s: Source)
    requires s.sourceId in t && m.Keys == t.Keys
    requires forall x <- l :: x.sourceId in m && m[x.sourceId] == x
    requires forall id <- t :: RowWith(t, id, s) in l && RowWith(t, id, s).sourceId == id
    ensures m == t[s.sourceId := s]
  {
    forall id <- t ensures m[id] == t[s.sourceId := s][id] {
      assert m[RowWith(t, id, s).sourceId] == RowWith(t, id, s);
    }
  }

  lemma ConfiguredWith(t: Table<Source>, s: Source)
    requires SourcesKeyed(t) && s.sourceId in t.rows
    ensures var l := SourcesWith(t, t.order, s);
            && !Duplicates(l) && s in l && Ids(l) == t.rows.Keys
            && (forall x <- l :: x == s || t.Get(x.sourceId) == Some(x))
            && forall id <- t.rows :: RowWith(t.rows, id, s) in l && RowWith(t.rows, id, s).sourceId == id
  {
    SourcesWithAre(t.rows, t, t.order, s);
    assert RowWith(t.rows, s.sourceId, s) == s;
    IdsWith(t.rows, SourcesWith(t, t.order, s), s);
  }

  lemma IdsWith(t: map<Id, Source>, l: seq<Source>, s: Source)
    requires forall x <- l :: x.sourceId in t
    requires forall id <- t :: RowWith(t, id, s) in l && RowWith(t, id, s).sourceId == id
    ensures Ids(l) == t.Keys
  {
    forall id <- t ensures id in Ids(l) {
      assert RowWith(t, id, s) in l;
    }
  }

  lemma RecordedWith(t: Table<Source>, s: Source)
    requires SourcesKeyed(t) && s.sourceId in t.rows
    ensures Recorded(t.rows, SourcesWith(t, t.order, s)) == t.rows[s.sourceId := s]
  {
    var l := SourcesWith(t, t.order, s);
    ConfiguredWith(t, s);
    RecordedIs(t.rows, l);
    RecordedFrom(t.rows, l, Recorded(t.rows, l), s);
  }

  lemma RefusalWith(t: Tables, q: Request)
    requires SourcesKeyed(t.sources) && t.projectId == q.projectId && q.source.sourceId in t.sources.rows
    ensures ClaimRefusal(t, q.projectId, SourcesWith(t.sources, t.sources.order, q.source)) ==
            if Recordable(t, q.source) then None else Some(GenerationChangedWithOpen)
  {
    ConfiguredWith(t.sources, q.source);
    var l := SourcesWith(t.sources, t.sources.order, q.source);
    forall id <- t.sources.rows ensures Configured(l, id) {
      assert RowWith(t.sources.rows, id, q.source) in l;
    }
  }

  /** Claiming the recorded sources with one of them changed: what it records, and the one reason it can be refused. */
  lemma ClaimWith(t: Tables, q: Request)
    requires Sound(t) && t.projectId == q.projectId && q.source.sourceId in t.sources.rows
    ensures match Claim(t, q.projectId, SourcesWith(t.sources, t.sources.order, q.source), q.now)
            case Ok(u) => Recordable(t, q.source) && ClaimedAs(t, u, q.now) && u.sources.rows == t.sources.rows[q.source.sourceId := q.source]
            case Err(e) => !Recordable(t, q.source) && e == GenerationChangedWithOpen
  {
    RefusalWith(t, q);
    assert Recorded(t.sources.rows, SourcesWith(t.sources, t.sources.order, q.source)) == t.sources.rows[q.source.sourceId := q.source] by {
      RecordedWith(t.sources, q.source);
    }
    ClaimExact(t, q.projectId, SourcesWith(t.sources, t.sources.order, q.source), q.now);
  }

  // ----- all or nothing -------------------------------------------------------------------

  predicate AnythingStale(t: Tables, s: Source) {
    || (exists k <- t.incidents.rows :: IsStale(t.incidents.rows[k], s))
    || (exists k <- t.boundaries.rows :: InForceAt(t.boundaries.rows[k], s.sourceId) && t.boundaries.rows[k].generation != s.generation)
  }

  /** The source is recorded otherwise than it is configured, and an incident of the configured generation is open. */
  predicate Blocked(t: Tables, s: Source) {
    && t.sources.Get(s.sourceId) != Some(s)
    && exists k <- t.incidents.rows :: IsOpenAt(t.incidents.rows[k], s.sourceId) && t.incidents.rows[k].generation == s.generation
  }

  /** Everything a completed rebaseline changes: nothing of another source, and no incident of the configured generation. */
  predicate RebaselinedAs(t: Tables, u: Tables, q: Request, closed: seq<Id>, retired: Option<Id>) {
    && u == t.(sources := u.sources, incidents := u.incidents, boundaries := u.boundaries, events := u.events)
    && u.sources.rows == t.sources.rows[q.source.sourceId := q.source]
    && u.incidents.order == t.incidents.order && u.incidents.rows.Keys == t.incidents.rows.Keys
    && (forall k <- t.incidents.rows :: u.incidents.rows[k] == if IsStale(t.incidents.rows[k], q.source) then Closed(t.incidents.rows[k], q) else t.incidents.rows[k])
    && (forall k <- t.incidents.rows :: k in closed <==> IsStale(t.incidents.rows[k], q.source))
    && (forall k <- closed :: k in t.incidents.rows) && NoRepeats(closed)
    && u.boundaries.order == t.boundaries.order && u.boundaries.rows.Keys == t.boundaries.rows.Keys
    && (forall k <- t.boundaries.rows ::
          u.boundaries.rows[k] == if retired == Some(k)
                                  then EndBoundary(t.boundaries.rows[k], GenerationRetirement(q.source.sourceId, t.boundaries.rows[k].generation, q.source.generation), q.now)
                                  else t.boundaries.rows[k])
  }

  lemma StaleBoundaryIs(t: Tables, s: Source)
    requires BoundariesKeyed(t.boundaries, t.sources) && OneInForce(t.boundaries.rows)
    ensures forall k <- t.boundaries.rows ::
              StaleBoundary(t, s) == Some(k) <==> InForceAt(t.boundaries.rows[k], s.sourceId) && t.boundaries.rows[k].generation != s.generation
    ensures StaleBoundary(t, s).Some? ==> StaleBoundary(t, s).value in t.boundaries.rows
  {
    BoundaryOfIs(t, s.sourceId);
  }

  lemma ClosedAre(t: Tables, s: Source)
    requires IncidentsKeyed(t.incidents, t.sources)
    ensures var closed := IdsOf(StaleIncidents(t, s));
            && NoRepeats(closed)
            && (forall k <- closed :: k in t.incidents.rows)
            && forall k <- t.incidents.rows :: k in closed <==> IsStale(t.incidents.rows[k], s)
  {
    StaleAre(t, s);
    var stale := StaleIncidents(t, s);
    forall k <- t.incidents.rows | IsStale(t.incidents.rows[k], s) ensures k in IdsOf(stale) {
      var i :| 0 <= i < |stale| && stale[i] == t.incidents.rows[k];
      assert IdsOf(stale)[i] == k;
    }
  }

  /** Only the source's own boundary can belong to another generation than the one recorded. */
  lemma RetiredIs(t: Tables, v: Tables, q: Request)
    requires BoundariesKeyed(t.boundaries, t.sources) && OneInForce(t.boundaries.rows) && Current(t.boundaries.rows, t.sources.rows)
    requires v.sources.rows == t.sources.rows[q.source.sourceId := q.source]
    ensures forall k <- t.boundaries.rows ::
              Reclaimed(t.boundaries.rows[k], v.sources.rows, q.now) ==
              if StaleBoundary(t, q.source) == Some(k)
              then EndBoundary(t.boundaries.rows[k], GenerationRetirement(q.source.sourceId, t.boundaries.rows[k].generation, q.source.generation), q.now)
              else t.boundaries.rows[k]
  {
    StaleBoundaryIs(t, q.source);
  }

  lemma RebaselinedIs(t: Tables, u: Tables, v: Tables, q: Request)
    requires IncidentsKeyed(t.incidents, t.sources)
    requires BoundariesKeyed(t.boundaries, t.sources) && OneInForce(t.boundaries.rows) && Current(t.boundaries.rows, t.sources.rows)
    requires ClosedIn(t, u, StaleIncidents(t, q.source), q) && ClaimedAs(u, v, q.now)
    requires v.sources.rows == t.sources.rows[q.source.sourceId := q.source]
    ensures RebaselinedAs(t, v, q, IdsOf(StaleIncidents(t, q.source)), StaleBoundary(t, q.source))
  {
    StaleAre(t, q.source);
    ClosedAre(t, q.source);
    RetiredIs(t, v, q);
  }

  lemma AnythingStaleIs(t: Tables, s: Source)
    requires IncidentsKeyed(t.incidents, t.sources) && BoundariesKeyed(t.boundaries, t.sources) && OneInForce(t.boundaries.rows)
    ensures AnythingStale(t, s) <==> StaleIncidents(t, s) != [] || StaleBoundary(t, s).Some?
    ensures AnythingStale(t, s) ==> s.sourceId in t.sources.rows
  {
    StaleAre(t, s);
    StaleBoundaryIs(t, s);
    var stale := StaleIncidents(t, s);
    if stale != [] { assert IsStale(t.incidents.rows[stale[0].failureId], s); }
  }

  /** With the stale incidents closed, only an open incident of the configured generation stands in the way. */
  lemma BlockedIs(t: Tables, u: Tables, q: Request)
    requires IncidentsKeyed(t.incidents, t.sources) && ClosedIn(t, u, StaleIncidents(t, q.source), q) && q.source.sourceId in t.sources.rows
    ensures Recordable(u, q.source) <==> !Blocked(t, q.source)
  {
    StaleAre(t, q.source);
    forall k <- t.incidents.rows
      ensures IsOpenAt(u.incidents.rows[k], q.source.sourceId) <==> IsOpenAt(t.incidents.rows[k], q.source.sourceId) && t.incidents.rows[k].generation == q.source.generation {
      assert t.incidents.rows[k] in StaleIncidents(t, q.source) <==> IsStale(t.incidents.rows[k], q.source);
    }
  }

  /** The two halves of a rebaseline: the incidents closed, then the sources claimed. */
  lemma ClosedThenClaimed(t: Tables, q: Request)
    requires Sound(t) && t.projectId == q.projectId && q.source.sourceId in t.sources.rows
    ensures var c := CloseAll(t, StaleIncidents(t, q.source), q);
            && c.Ok? && ClosedIn(t, c.value, StaleIncidents(t, q.source), q)
            && match Claim(c.value, q.projectId, SourcesWith(c.value.sources, c.value.sources.order, q.source), q.now)
               case Ok(v) => Recordable(c.value, q.source) && ClaimedAs(c.value, v, q.now) && v.sources.rows == t.sources.rows[q.source.sourceId := q.source]
               case Err(e) => !Recordable(c.value, q.source) && e == GenerationChangedWithOpen
  {
    var stale := StaleIncidents(t, q.source);
    StaleAre(t, q.source);
    CloseAllIs(t, stale, q);
    assert Sound(CloseAll(t, stale, q).value) by { CloseAllKeeps(t, stale, q); }
    ClaimWith(CloseAll(t, stale, q).value, q);
  }

  /** Claiming what was configured, once the stale incidents are closed: all of it is done, or the one thing in the way is named. */
  lemma ClaimedAfter(t: Tables, u: Tables, c: Result<Tables, Refusal>, q: Request)
    requires IncidentsKeyed(t.incidents, t.sources) && q.source.sourceId in t.sources.rows
    requires BoundariesKeyed(t.boundaries, t.sources) && OneInForce(t.boundaries.rows) && Current(t.boundaries.rows, t.sources.rows)
    requires ClosedIn(t, u, StaleIncidents(t, q.source), q)
    requires match c
             case Ok(v) => Recordable(u, q.source) && ClaimedAs(u, v, q.now) && v.sources.rows == t.sources.rows[q.source.sourceId := q.source]
             case Err(e) => !Recordable(u, q.source) && e == GenerationChangedWithOpen
    ensures match c
            case Ok(v) => !Blocked(t, q.source) && RebaselinedAs(t, v, q, IdsOf(StaleIncidents(t, q.source)), StaleBoundary(t, q.source))
            case Err(e) => Blocked(t, q.source) && e == GenerationChangedWithOpen
  {
    BlockedIs(t, u, q);
    if c.Ok? { RebaselinedIs(t, u, c.value, q); }
  }

  /** With something stale, a rebaseline is what the claim makes of the tables with the stale incidents closed. */
  lemma StaleRebaselined(t: Tables, q: Request)
    requires Sound(t) && t.projectId == q.projectId && q.source.sourceId in t.sources.rows
    requires StaleIncidents(t, q.source) != [] || StaleBoundary(t, q.source).Some?
    ensures match Rebaseline(t, q)
            case Ok((u, Nothing)) => false
            case Ok((u, Rebaselined(closed, retired))) => !Blocked(t, q.source) && RebaselinedAs(t, u, q, closed, retired)
            case Err(e) => Blocked(t, q.source) && e == GenerationChangedWithOpen
  {
    ClosedThenClaimed(t, q);
    var u := CloseAll(t, StaleIncidents(t, q.source), q).value;
    var c := Claim(u, q.projectId, SourcesWith(u.sources, u.sources.order, q.source), q.now);
    ClaimedAfter(t, u, c, q);
    RebaselineIs(t, u, c, q);
  }

  lemma RebaselineIs(t: Tables, u: Tables, c: Result<Tables, Refusal>, q: Request)
    requires StaleIncidents(t, q.source) != [] || StaleBoundary(t, q.source).Some?
    requires CloseAll(t, StaleIncidents(t, q.source), q) == Ok(u)
    requires c == Claim(u, q.projectId, SourcesWith(u.sources, u.sources.order, q.source), q.now)
    ensures Rebaseline(t, q) == match c case Err(e) => Err(e) case Ok(v) => Ok((v, Rebaselined(IdsOf(StaleIncidents(t, q.source)), StaleBoundary(t, q.source))))
  {
  }

  /**
   * A rebaseline does nothing when nothing is stale, is refused exactly when the configured generation
   * already has an open incident under another recorded identity, and otherwise does all of it.
   */
  lemma RebaselineExact(t: Tables, q: Request)
    requires Sound(t) && t.projectId == q.projectId
    ensures match Rebaseline(t, q)
            case Ok((u, Nothing)) => !AnythingStale(t, q.source) && u == t
            case Ok((u, Rebaselined(closed, retired))) => AnythingStale(t, q.source) && !Blocked(t, q.source) && RebaselinedAs(t, u, q, closed, retired)
            case Err(e) => AnythingStale(t, q.source) && Blocked(t, q.source) && e == GenerationChangedWithOpen
  {
    AnythingStaleIs(t, q.source);
    if AnythingStale(t, q.source) { StaleRebaselined(t, q); }
  }

  lemma RebaselineKeeps(t: Tables, q: Request)
    requires Sound(t) && Rebaseline(t, q).Ok?
    ensures Sound(Rebaseline(t, q).value.0)
  {
    var stale := StaleIncidents(t, q.source);
    if !(stale == [] && StaleBoundary(t, q.source).None?) {
      var u := CloseAll(t, stale, q).value;
      assert Sound(u) by { CloseAllKeeps(t, stale, q); }
      ClaimKeeps(u, q.projectId, SourcesWith(u.sources, u.sources.order, q.source), q.now);
    }
  }

  lemma NoneStaleIn(t: Tables, u: Tables, q: Request, closed: seq<Id>, retired: Option<Id>)
    requires RebaselinedAs(t, u, q, closed, retired) && Current(u.boundaries.rows, u.sources.rows)
    ensures !AnythingStale(u, q.source)
  {
  }

  /** Nothing of an earlier generation is left open or in force once a rebaseline completes. */
  lemma NothingStaleLeft(t: Tables, q: Request)
    requires Sound(t) && t.projectId == q.projectId && Rebaseline(t, q).Ok?
    ensures !AnythingStale(Rebaseline(t, q).value.0, q.source)
  {
    var u := Rebaseline(t, q).value.0;
    RebaselineExact(t, q);
    match Rebaseline(t, q).value.1
    case Nothing =>
    case Rebaselined(closed, retired) =>
      assert Current(u.boundaries.rows, u.sources.rows) by { RebaselineKeeps(t, q); }
      NoneStaleIn(t, u, q, closed, retired);
  }

  /** A rebaseline is never refused while every open incident carries its source's recorded generation. */
  lemma NeverRefused(t: Tables, q: Request)
    requires Sound(t) && t.projectId == q.projectId
    requires forall k <- t.incidents.rows :: t.incidents.rows[k].state == Open ==>
               t.incidents.rows[k].generation == t.sources.rows[t.incidents.rows[k].sourceId].generation
    ensures Rebaseline(t, q).Ok?
  {
    RebaselineExact(t, q);
  }
}
