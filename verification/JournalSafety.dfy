/** What every run of the failure journal keeps. */
module JournalSafety {
  import opened Wrappers
  import opened JournalSpec

  // ----- the invariant -----------------------------------------------------------

  predicate SourcesKeyed(s: Table<Source>) {
    s.Valid() && forall k <- s.rows :: s.rows[k].sourceId == k
  }

  predicate IncidentsKeyed(i: Table<Incident>, s: Table<Source>) {
    i.Valid() && forall k <- i.rows :: i.rows[k].failureId == k && i.rows[k].sourceId in s.rows
  }

  predicate BoundariesKeyed(b: Table<Boundary>, s: Table<Source>) {
    b.Valid() && forall k <- b.rows :: b.rows[k].boundaryId == k && b.rows[k].sourceId in s.rows
  }

  /** The source has at most one boundary in force. */
  predicate OneInForce(b: map<Id, Boundary>) {
    forall j <- b, k <- b :: b[j].state == InForce && b[k].state == InForce && b[j].sourceId == b[k].sourceId ==> j == k
  }

  /** A boundary in force belongs to the generation its source is recorded at. */
  predicate Current(b: map<Id, Boundary>, s: map<Id, Source>) {
    forall k <- b :: b[k].state == InForce ==> b[k].sourceId in s && b[k].generation == s[b[k].sourceId].generation
  }

  predicate NoRepeats(ids: seq<Id>) {
    forall i, j :: 0 <= i < j < |ids| ==> ids[i] != ids[j]
  }

  /** A boundary lists incidents of its own source once each, and none once it is superseded. */
  predicate ListsIncidents(b: Boundary, i: map<Id, Incident>) {
    && NoRepeats(b.failureIds)
    && (b.state == Superseded ==> b.failureIds == [])
    && (b.state == InForce <==> b.retirement.None?)
    && forall id <- b.failureIds :: id in i && i[id].sourceId == b.sourceId
  }

  predicate Listed(b: map<Id, Boundary>, i: map<Id, Incident>) {
    forall k <- b :: ListsIncidents(b[k], i)
  }

  /** The boundary an incident names exists, is of the incident's source, and is named by no other incident. */
  predicate Named(b: map<Id, Boundary>, i: map<Id, Incident>) {
    && (forall k <- i :: i[k].boundaryId.Some? ==> i[k].boundaryId.value in b && b[i[k].boundaryId.value].sourceId == i[k].sourceId)
    && (forall j <- i, k <- i :: i[j].boundaryId.Some? && i[j].boundaryId == i[k].boundaryId ==> j == k)
  }

  predicate CircuitsBounded(c: map<Id, Circuit>, s: map<Id, Source>) {
    forall k <- c :: k in s && |c[k].advances| <= MAX_CIRCUIT_ADVANCES
  }

  ghost predicate EventsBounded(events: seq<Event>) {
    forall id: Id :: |History(events, id)| <= MAX_EVENTS_PER_INCIDENT
  }

  ghost predicate Sound(t: Tables) {
    && SourcesKeyed(t.sources)
    && IncidentsKeyed(t.incidents, t.sources)
    && BoundariesKeyed(t.boundaries, t.sources)
    && OneInForce(t.boundaries.rows)
    && Current(t.boundaries.rows, t.sources.rows)
    && Listed(t.boundaries.rows, t.incidents.rows)
    && Named(t.boundaries.rows, t.incidents.rows)
    && CircuitsBounded(t.circuits, t.sources.rows)
    && EventsBounded(t.events)
  }

  // ----- queries --------------------------------------------------------------------

  lemma {:induction false} FirstInForceIs(t: Table<Boundary>, keys: seq<Id>, source: Id)
    ensures FirstInForce(t, keys, source).Some? ==>
              exists k <- keys :: k in t.rows && InForceAt(t.rows[k], source) && FirstInForce(t, keys, source).value == t.rows[k]
    ensures FirstInForce(t, keys, source).None? ==> forall k <- keys :: k in t.rows ==> !InForceAt(t.rows[k], source)
  {
    if keys != [] && !(keys[0] in t.rows && InForceAt(t.rows[keys[0]], source)) {
      FirstInForceIs(t, keys[1..], source);
      assert keys == [keys[0]] + keys[1..];
    }
  }

  /** The query finds the source's boundary in force, whichever row that is. */
  lemma BoundaryOfIs(t: Tables, source: Id)
    requires BoundariesKeyed(t.boundaries, t.sources) && OneInForce(t.boundaries.rows)
    ensures match BoundaryOf(t, source)
            case Some(b) => b.boundaryId in t.boundaries.rows && t.boundaries.rows[b.boundaryId] == b && InForceAt(b, source)
            case None => forall k <- t.boundaries.rows :: !InForceAt(t.boundaries.rows[k], source)
    ensures forall k <- t.boundaries.rows ::
              InForceAt(t.boundaries.rows[k], source) ==> BoundaryOf(t, source) == Some(t.boundaries.rows[k])
  {
    FirstInForceIs(t.boundaries, t.boundaries.order, source);
  }

  lemma {:induction false} OpenOfHas(t: Table<Incident>, keys: seq<Id>, source: Id, r: Incident)
    ensures r in OpenOf(t, keys, source) <==> exists k <- keys :: k in t.rows && t.rows[k] == r && IsOpenAt(r, source)
  {
    if keys != [] {
      OpenOfHas(t, keys[1..], source, r);
      assert keys == [keys[0]] + keys[1..];
    }
  }

  predicate HasOpen(t: Tables, source: Id) {
    exists k <- t.incidents.rows :: IsOpenAt(t.incidents.rows[k], source)
  }

  lemma OpenIncidentsAre(t: Tables, source: Id)
    requires IncidentsKeyed(t.incidents, t.sources)
    ensures forall r :: r in OpenIncidents(t, source) <==> r.failureId in t.incidents.rows && t.incidents.rows[r.failureId] == r && IsOpenAt(r, source)
    ensures OpenIncidents(t, source) != [] <==> HasOpen(t, source)
  {
    forall r ensures r in OpenIncidents(t, source) <==> r.failureId in t.incidents.rows && t.incidents.rows[r.failureId] == r && IsOpenAt(r, source) {
      OpenOfHas(t.incidents, t.incidents.order, source, r);
    }
    if OpenIncidents(t, source) != [] {
      assert OpenIncidents(t, source)[0] in OpenIncidents(t, source);
    }
    forall k | k in t.incidents.rows && IsOpenAt(t.incidents.rows[k], source) ensures OpenIncidents(t, source) != [] {
      assert t.incidents.rows[k] in OpenIncidents(t, source);
    }
  }

  // ----- events ---------------------------------------------------------------------

  lemma {:induction false} HistorySplits(a: seq<Event>, b: seq<Event>, id: Id)
    ensures History(a + b, id) == History(a, id) + History(b, id)
  {
    if a == [] {
      assert a + b == b;
    } else {
      HistorySplits(a[1..], b, id);
      assert (a + b)[1..] == a[1..] + b;
    }
  }

  lemma {:induction false} DroppedOldest(events: seq<Event>, id: Id, n: nat, other: Id)
    requires n <= |History(events, id)|
    ensures History(DropOldest(events, id, n), other) == if other == id then History(events, id)[n..] else History(events, other)
  {
    if n > 0 && events != [] {
      if events[0].failureId == id {
        DroppedOldest(events[1..], id, n - 1, other);
      } else {
        DroppedOldest(events[1..], id, n, other);
        var rest := DropOldest(events[1..], id, n);
        assert ([events[0]] + rest)[1..] == rest;
      }
    }
  }

  function Newest(events: seq<Event>): seq<Event> {
    if |events| > MAX_EVENTS_PER_INCIDENT then events[|events| - MAX_EVENTS_PER_INCIDENT..] else events
  }

  /** Adding an event keeps exactly the incident's newest 200, and every other incident's history. */
  lemma EventAdded(t: Tables, e: Event, id: Id)
    ensures History(WithEvent(t, e).events, id) ==
            if id == e.failureId then Newest(History(t.events, id) + [e]) else History(t.events, id)
  {
    var all := t.events + [e];
    HistorySplits(t.events, [e], id);
    HistorySplits(t.events, [e], e.failureId);
    assert History([e], id) == if id == e.failureId then [e] else [];
    var n := |History(all, e.failureId)|;
    DroppedOldest(all, e.failureId, if n > MAX_EVENTS_PER_INCIDENT then n - MAX_EVENTS_PER_INCIDENT else 0, id);
  }

  lemma EventKeeps(t: Tables, e: Event)
    requires Sound(t)
    ensures Sound(WithEvent(t, e))
  {
    forall id: Id ensures |History(WithEvent(t, e).events, id)| <= MAX_EVENTS_PER_INCIDENT {
      EventAdded(t, e, id);
    }
  }

  // ----- statements -------------------------------------------------------------------

  lemma IncidentKeeps(t: Tables, r: Incident)
    requires Sound(t) && r.failureId in t.incidents.rows
    requires r.sourceId == t.incidents.rows[r.failureId].sourceId && r.boundaryId == t.incidents.rows[r.failureId].boundaryId
    ensures Sound(t.(incidents := t.incidents.Update(r.failureId, r)))
  {
    RowRewritten(t.incidents, t.sources, t.boundaries.rows, r);
    var i := t.incidents.Update(r.failureId, r).rows;
    assert forall k <- i :: i[k].sourceId == t.incidents.rows[k].sourceId && i[k].boundaryId == t.incidents.rows[k].boundaryId;
  }

  lemma NewIncidentKeeps(t: Tables, r: Incident)
    requires Sound(t) && r.failureId !in t.incidents.rows && r.sourceId in t.sources.rows && r.boundaryId.None?
    ensures Sound(t.(incidents := t.incidents.Insert(r.failureId, r)))
  {
    var i := t.incidents.Insert(r.failureId, r);
    assert r.failureId !in t.incidents.order;
    assert i.Valid();
  }

  /** A boundary moved out of force, in its table. */
  lemma RowEnded(b: Table<Boundary>, s: Table<Source>, i: map<Id, Incident>, e: Boundary)
    requires BoundariesKeyed(b, s) && OneInForce(b.rows) && Current(b.rows, s.rows) && Listed(b.rows, i) && Named(b.rows, i)
    requires e.boundaryId in b.rows && e.sourceId == b.rows[e.boundaryId].sourceId && e.state != InForce
    requires ListsIncidents(e, i)
    ensures var u := b.Update(e.boundaryId, e);
            BoundariesKeyed(u, s) && OneInForce(u.rows) && Current(u.rows, s.rows) && Listed(u.rows, i) && Named(u.rows, i)
  {
    var u := b.Update(e.boundaryId, e);
    assert u.rows.Keys == b.rows.Keys;
    assert forall k <- u.rows :: u.rows[k].sourceId == b.rows[k].sourceId;
    assert forall k <- u.rows :: u.rows[k].state == InForce ==> u.rows[k] == b.rows[k];
  }

  lemma EndedKeeps(t: Tables, id: Id, retirement: Retirement, at: Time)
    requires Sound(t) && id in t.boundaries.rows && t.boundaries.rows[id].state == InForce
    ensures var u := SaveBoundary(t, EndBoundary(t.boundaries.rows[id], retirement, at));
            Sound(u) && BoundaryOf(u, t.boundaries.rows[id].sourceId).None?
  {
    var b := t.boundaries.rows[id];
    var ended := EndBoundary(b, retirement, at);
    assert ListsIncidents(b, t.incidents.rows);
    RowEnded(t.boundaries, t.sources, t.incidents.rows, ended);
    NoneLeft(t.boundaries, t.sources, ended);
  }

  lemma NoneLeft(b: Table<Boundary>, s: Table<Source>, e: Boundary)
    requires BoundariesKeyed(b, s) && OneInForce(b.rows)
    requires e.boundaryId in b.rows && InForceAt(b.rows[e.boundaryId], e.sourceId) && e.state != InForce
    ensures FirstInForce(b.Update(e.boundaryId, e), b.order, e.sourceId).None?
  {
    FirstInForceIs(b.Update(e.boundaryId, e), b.order, e.sourceId);
  }

  // ----- claim ---------------------------------------------------------------------------

  lemma SourceRecorded(t: Tables, s: Source)
    requires Sound(t) && s.sourceId in t.sources.rows
    requires BoundaryOf(t, s.sourceId).None? || BoundaryOf(t, s.sourceId).value.generation == s.generation
    ensures Sound(t.(sources := t.sources.Update(s.sourceId, s)))
  {
    BoundaryOfIs(t, s.sourceId);
    var u := t.sources.Update(s.sourceId, s);
    assert u.rows.Keys == t.sources.rows.Keys;
  }

  lemma ReidentifiedKeeps(t: Tables, s: Source, now: Time)
    requires Sound(t) && s.sourceId in t.sources.rows
    ensures Sound(Reidentified(t, s, now))
  {
    BoundaryOfIs(t, s.sourceId);
    var found := BoundaryOf(t, s.sourceId);
    if found.Some? && found.value.generation != s.generation {
      var retirement := GenerationRetirement(s.sourceId, found.value.generation, s.generation);
      EndedKeeps(t, found.value.boundaryId, retirement, now);
      SourceRecorded(SaveBoundary(t, EndBoundary(found.value, retirement, now)), s);
    } else {
      SourceRecorded(t, s);
    }
  }

  lemma ClaimOneKeeps(stored: Table<Source>, t: Tables, s: Source, now: Time)
    requires Sound(t) && stored.rows.Keys <= t.sources.rows.Keys
    requires s.sourceId in t.sources.rows ==> s.sourceId in stored.rows
    ensures match ClaimOne(stored, t, s, now)
            case Ok(u) => Sound(u) && u.sources.rows.Keys == t.sources.rows.Keys + {s.sourceId}
            case Err(e) => e == GenerationChangedWithOpen
  {
    if s.sourceId !in stored.rows {
      var u := t.(sources := t.sources.Insert(s.sourceId, s));
      assert s.sourceId !in t.sources.order;
      assert u.sources.Valid();
    } else if stored.rows[s.sourceId] != s && OpenIncidents(t, s.sourceId) == [] {
      ReidentifiedKeeps(t, s, now);
    }
  }

  function Ids(sources: seq<Source>): set<Id> {
    set s <- sources :: s.sourceId
  }

  lemma PrefixDuplicates(sources: seq<Source>)
    requires sources != []
    ensures Duplicates(sources[..|sources| - 1]) ==> Duplicates(sources)
  {
    var before := sources[..|sources| - 1];
    if Duplicates(before) {
      var i, j :| 0 <= i < j < |before| && before[i].sourceId == before[j].sourceId;
      assert sources[i].sourceId == sources[j].sourceId;
    }
  }

  lemma LastApart(sources: seq<Source>)
    requires !Duplicates(sources) && sources != []
    ensures var before, last := sources[..|sources| - 1], sources[|sources| - 1].sourceId;
            !Duplicates(before) && last !in Ids(before) && Ids(sources) == Ids(before) + {last}
  {
    PrefixDuplicates(sources);
    var before := sources[..|sources| - 1];
    assert sources == before + [sources[|sources| - 1]];
  }

  /** Sound tables with the recorded sources and these more. */
  ghost predicate ClaimedSoundly(t: Tables, u: Tables, ids: set<Id>) {
    Sound(u) && u.sources.rows.Keys == t.sources.rows.Keys + ids
  }

  lemma {:induction false} ClaimAllKeeps(t: Tables, sources: seq<Source>, now: Time)
    requires Sound(t) && !Duplicates(sources)
    ensures match ClaimAll(t.sources, t, sources, now)
            case Ok(u) => ClaimedSoundly(t, u, Ids(sources))
            case Err(e) => e == GenerationChangedWithOpen
    decreases |sources|
  {
    if sources != [] {
      var before, s := sources[..|sources| - 1], sources[|sources| - 1];
      LastApart(sources);
      ClaimAllKeeps(t, before, now);
      var r := ClaimAll(t.sources, t, before, now);
      if r.Ok? { ClaimMoreKeeps(t, r.value, Ids(before), s, now); }
    }
  }

  lemma ClaimMoreKeeps(t: Tables, u: Tables, ids: set<Id>, s: Source, now: Time)
    requires ClaimedSoundly(t, u, ids) && s.sourceId !in ids
    ensures match ClaimOne(t.sources, u, s, now)
            case Ok(v) => ClaimedSoundly(t, v, ids + {s.sourceId})
            case Err(e) => e == GenerationChangedWithOpen
  {
    ClaimOneKeeps(t.sources, u, s, now);
  }

  // ----- prepareAdvance ----------------------------------------------------------------------

  /** An accepted advance: the incident it is for, and the boundary it replaces. */
  predicate Admissible(t: Tables, a: Advance) {
    AdvanceInputRefusal(a).None? && AdvanceStateRefusal(t, a).None?
  }

  lemma SupersedingKeeps(t: Tables, source: Id, at: Time)
    requires Sound(t)
    ensures var u := Superseding(t, BoundaryOf(t, source), at); Sound(u) && BoundaryOf(u, source).None?
  {
    BoundaryOfIs(t, source);
    var prior := BoundaryOf(t, source);
    if prior.Some? {
      EndedKeeps(t, prior.value.boundaryId, Retirement(BySuperseded, None, None), at);
    }
  }

  /** Superseding rewrites the source's boundary in force, and nothing else. */
  lemma SupersedingRows(t: Tables, source: Id, at: Time)
    requires BoundariesKeyed(t.boundaries, t.sources) && OneInForce(t.boundaries.rows)
    ensures var u := Superseding(t, BoundaryOf(t, source), at);
            && u == t.(boundaries := u.boundaries) && u.boundaries.rows.Keys == t.boundaries.rows.Keys
            && forall k <- t.boundaries.rows ::
                 u.boundaries.rows[k] == if InForceAt(t.boundaries.rows[k], source)
                                         then EndBoundary(t.boundaries.rows[k], Retirement(BySuperseded, None, None), at)
                                         else t.boundaries.rows[k]
  {
    BoundaryOfIs(t, source);
  }

  lemma CarriedKeeps(t: Tables, source: Id, r: Incident)
    requires Sound(t) && r.failureId in t.incidents.rows && t.incidents.rows[r.failureId] == r && r.sourceId == source
    ensures NoRepeats(Carried(BoundaryOf(t, source), r.failureId))
    ensures forall id <- Carried(BoundaryOf(t, source), r.failureId) :: id in t.incidents.rows && t.incidents.rows[id].sourceId == source
  {
    BoundaryOfIs(t, source);
    var prior := BoundaryOf(t, source);
    if prior.Some? {
      assert ListsIncidents(prior.value, t.incidents.rows);
    }
  }

  /** A boundary inserted in force, in its table. */
  lemma RowInserted(t: Table<Boundary>, s: Table<Source>, i: map<Id, Incident>, b: Boundary)
    requires BoundariesKeyed(t, s) && OneInForce(t.rows) && Current(t.rows, s.rows) && Listed(t.rows, i)
    requires b.boundaryId !in t.rows && b.state == InForce && forall k <- t.rows :: !InForceAt(t.rows[k], b.sourceId)
    requires b.sourceId in s.rows && b.generation == s.rows[b.sourceId].generation
    requires ListsIncidents(b, i)
    ensures var u := t.Insert(b.boundaryId, b);
            BoundariesKeyed(u, s) && OneInForce(u.rows) && Current(u.rows, s.rows) && Listed(u.rows, i)
  {
    assert b.boundaryId !in t.order;
    assert t.Insert(b.boundaryId, b).Valid();
  }

  /** An incident's row rewritten: what is keyed by it, lists it or is named by it. */
  lemma RowRewritten(i: Table<Incident>, s: Table<Source>, b: map<Id, Boundary>, r: Incident)
    requires IncidentsKeyed(i, s) && r.failureId in i.rows && r.sourceId == i.rows[r.failureId].sourceId
    ensures IncidentsKeyed(i.Update(r.failureId, r), s)
    ensures Listed(b, i.rows) ==> Listed(b, i.Update(r.failureId, r).rows)
  {
    var u := i.Update(r.failureId, r);
    assert u.rows.Keys == i.rows.Keys;
    assert forall k <- u.rows :: u.rows[k].sourceId == i.rows[k].sourceId;
    if Listed(b, i.rows) {
      forall k <- b ensures ListsIncidents(b[k], u.rows) {
        assert ListsIncidents(b[k], i.rows);
      }
    }
  }

  /** The boundary just inserted is named by the one incident it was installed for. */
  lemma RowNamed(b: map<Id, Boundary>, i: map<Id, Incident>, r: Incident, n: Boundary)
    requires Named(b, i) && n.boundaryId !in b && r.failureId in i
    requires i[r.failureId].sourceId == r.sourceId == n.sourceId && r.boundaryId == Some(n.boundaryId)
    ensures Named(b[n.boundaryId := n], i[r.failureId := r])
  {
  }

  /** The boundary and the incident it is installed for, added together. */
  lemma InstalledKeeps(t: Tables, b: Boundary, r: Incident)
    requires Sound(t) && b.boundaryId !in t.boundaries.rows && b.state == InForce && BoundaryOf(t, b.sourceId).None?
    requires b.sourceId in t.sources.rows && b.generation == t.sources.rows[b.sourceId].generation
    requires ListsIncidents(b, t.incidents.rows)
    requires r.failureId in t.incidents.rows && t.incidents.rows[r.failureId].sourceId == r.sourceId == b.sourceId
    requires r.boundaryId == Some(b.boundaryId)
    ensures Sound(t.(boundaries := t.boundaries.Insert(b.boundaryId, b), incidents := t.incidents.Update(r.failureId, r)))
  {
    BoundaryOfIs(t, b.sourceId);
    RowInserted(t.boundaries, t.sources, t.incidents.rows, b);
    RowRewritten(t.incidents, t.sources, t.boundaries.Insert(b.boundaryId, b).rows, r);
    RowNamed(t.boundaries.rows, t.incidents.rows, r, b);
  }

  lemma CircuitKeeps(t: Tables, source: Id, c: Circuit)
    requires Sound(t) && |c.advances| <= MAX_CIRCUIT_ADVANCES
    ensures match SaveCircuit(t, source, c) case Ok(u) => Sound(u) case Err(e) => e == SourceNotClaimed
  {
  }

  /** The tables once the boundary is in and the incident has moved, before the circuit counts it. */
  function Installed(t: Tables, a: Advance): Tables
    requires Admissible(t, a)
  {
    var r := t.incidents.rows[a.failureId];
    var prior := BoundaryOf(t, r.sourceId);
    var u := Superseding(t, prior, a.at);
    IncidentAdvanced(u.(boundaries := u.boundaries.Insert(a.boundaryId, NextBoundary(a, r, prior))), a, r)
  }

  /** Once the prior boundary is superseded, the new one can go in. */
  lemma AdvanceReady(t: Tables, a: Advance)
    requires Sound(t) && Admissible(t, a)
    ensures var r := t.incidents.rows[a.failureId]; var prior := BoundaryOf(t, r.sourceId); var u := Superseding(t, prior, a.at);
            && Sound(u) && BoundaryOf(u, r.sourceId).None?
            && u == t.(boundaries := u.boundaries) && u.boundaries.rows.Keys == t.boundaries.rows.Keys
            && ListsIncidents(NextBoundary(a, r, prior), t.incidents.rows)
  {
    var r := t.incidents.rows[a.failureId];
    SupersedingKeeps(t, r.sourceId, a.at);
    assert Superseding(t, BoundaryOf(t, r.sourceId), a.at).boundaries.rows.Keys == t.boundaries.rows.Keys by { SupersedingRows(t, r.sourceId, a.at); }
    CarriedKeeps(t, r.sourceId, r);
  }

  lemma AdvanceFacts(t: Tables, a: Advance)
    requires Sound(t) && Admissible(t, a)
    ensures var r := t.incidents.rows[a.failureId];
            && r.failureId == a.failureId && r.sourceId in t.sources.rows && r.generation == t.sources.rows[r.sourceId].generation
            && a.boundaryId !in t.boundaries.rows
  {
  }

  lemma InstalledSound(t: Tables, a: Advance)
    requires Sound(t) && Admissible(t, a)
    ensures Sound(Installed(t, a))
  {
    AdvanceFacts(t, a);
    AdvanceReady(t, a);
    var r := t.incidents.rows[a.failureId];
    var prior := BoundaryOf(t, r.sourceId);
    var u, b, moved := Superseding(t, prior, a.at), NextBoundary(a, r, prior), AdvancedIncident(a, r);
    InstalledTogether(u, b, moved, AdvanceEvent(a));
  }

  lemma InstalledTogether(u: Tables, b: Boundary, moved: Incident, e: Event)
    requires Sound(u) && b.boundaryId !in u.boundaries.rows && b.state == InForce && BoundaryOf(u, b.sourceId).None?
    requires b.sourceId in u.sources.rows && b.generation == u.sources.rows[b.sourceId].generation
    requires ListsIncidents(b, u.incidents.rows)
    requires moved.failureId in u.incidents.rows && u.incidents.rows[moved.failureId].sourceId == moved.sourceId == b.sourceId
    requires moved.boundaryId == Some(b.boundaryId)
    ensures var v := u.(boundaries := u.boundaries.Insert(b.boundaryId, b));
            Sound(WithEvent(v.(incidents := v.incidents.Update(moved.failureId, moved)), e))
  {
    InstalledKeeps(u, b, moved);
    EventKeeps(u.(boundaries := u.boundaries.Insert(b.boundaryId, b), incidents := u.incidents.Update(moved.failureId, moved)), e);
  }

  /** Superseding first leaves the unique index free for the new boundary. */
  lemma AdvanceIs(t: Tables, a: Advance)
    requires Sound(t) && Admissible(t, a)
    ensures PrepareAdvance(t, a) == AdvanceCounted(Installed(t, a), t.incidents.rows[a.failureId], a.at)
  {
    var source := t.incidents.rows[a.failureId].sourceId;
    var u := Superseding(t, BoundaryOf(t, source), a.at);
    assert BoundaryOf(u, source).None? by { SupersedingKeeps(t, source, a.at); }
    assert u.boundaries.rows.Keys == t.boundaries.rows.Keys by { SupersedingRows(t, source, a.at); }
  }

  lemma CountKeeps(t: Tables, r: Incident, at: Time)
    requires Sound(t) && r.sourceId in t.sources.rows
    ensures AdvanceCounted(t, r, at).Ok? && Sound(AdvanceCounted(t, r, at).value)
  {
    var c := CircuitOf(t, r.sourceId);
    CircuitKeeps(t, r.sourceId, c.(advances := CountedAdvance(c.advances, EarlierTime(t, r), at), revision := c.revision + 1));
  }

  lemma AdvanceKeeps(t: Tables, a: Advance)
    requires Sound(t) && Admissible(t, a)
    ensures PrepareAdvance(t, a).Ok? && Sound(PrepareAdvance(t, a).value)
  {
    var r := t.incidents.rows[a.failureId];
    assert PrepareAdvance(t, a) == AdvanceCounted(Installed(t, a), r, a.at) by { AdvanceIs(t, a); }
    InstalledSound(t, a);
    assert Installed(t, a).sources == t.sources;
    CountKeeps(Installed(t, a), r, a.at);
  }

  // ----- steps and runs --------------------------------------------------------------------------

  lemma ClaimKeeps(t: Tables, projectId: Id, sources: seq<Source>, now: Time)
    requires Sound(t)
    ensures match Claim(t, projectId, sources, now) case Ok(u) => Sound(u) case Err(e) => e != UniqueIndex
  {
    if !Duplicates(sources) { ClaimAllKeeps(t, sources, now); }
  }

  lemma PrepareKeeps(t: Tables, a: Advance)
    requires Sound(t)
    ensures match PrepareAdvance(t, a) case Ok(u) => Sound(u) case Err(e) => e != UniqueIndex
  {
    if Admissible(t, a) { AdvanceKeeps(t, a); }
  }

  lemma ObserveKeeps(t: Tables, o: Observation)
    requires Sound(t)
    ensures match Observe(t, o) case Ok(u) => Sound(u) case Err(e) => e == SourceNotClaimed
  {
    if o.failureId in t.incidents.rows {
      var r := t.incidents.rows[o.failureId];
      IncidentKeeps(t, Observed(r, o));
      EventKeeps(t.(incidents := t.incidents.Update(o.failureId, Observed(r, o))), ObservedEvent(Some(r), o));
    } else if o.sourceId in t.sources.rows {
      NewIncidentKeeps(t, NewIncident(o));
      EventKeeps(t.(incidents := t.incidents.Insert(o.failureId, NewIncident(o))), ObservedEvent(None, o));
    }
  }

  lemma UpdateKeeps(t: Tables, id: Id, expected: nat, p: Patch, e: Event)
    requires Sound(t)
    ensures match Update(t, id, expected, p, e) case Ok(u) => Sound(u) case Err(f) => f == UnknownIncident || f == StaleRevision
  {
    if id in t.incidents.rows && t.incidents.rows[id].revision == expected {
      var r := Patched(t.incidents.rows[id], p, e.at);
      IncidentKeeps(t, r);
      var u := t.(incidents := t.incidents.Update(id, r));
      EventKeeps(u, e.(failureId := id));
      assert Update(t, id, expected, p, e) == Ok(WithEvent(u, e.(failureId := id)));
    }
  }

  lemma {:induction false} NotTheIndex(incidents: map<Id, Incident>, ids: seq<Id>)
    ensures FirstBlocking(incidents, ids) != Some(UniqueIndex)
  {
    if ids != [] { NotTheIndex(incidents, ids[1..]); }
  }

  lemma RetireKeeps(t: Tables, id: Id, expected: nat, retirement: Retirement, at: Time)
    requires Sound(t)
    ensures match RetireBoundary(t, id, expected, retirement, at) case Ok(u) => Sound(u) case Err(e) => e != UniqueIndex
  {
    if RetirementRefusal(t, id, expected, retirement.mode).None? {
      EndedKeeps(t, id, retirement, at);
    } else if id in t.boundaries.rows {
      NotTheIndex(t.incidents.rows, t.boundaries.rows[id].failureIds);
    }
  }

  lemma CircuitUpdateKeeps(t: Tables, source: Id, expected: nat, next: Circuit)
    requires Sound(t)
    ensures match UpdateCircuit(t, source, expected, next) case Ok(u) => Sound(u) case Err(e) => e == StaleRevision || e == SourceNotClaimed
  {
    CircuitKeeps(t, source, next.(advances := CapAdvances(next.advances), revision := expected + 1));
  }

  /** Every call keeps the invariant, and none ever trips over a unique index. */
  lemma StepKeeps(t: Tables, c: Call)
    requires Sound(t)
    ensures match Step(t, c) case Ok(u) => Sound(u) case Err(e) => e != UniqueIndex
    ensures Sound(After(t, c))
  {
    match c
    case CallClaim(projectId, sources, now) => ClaimKeeps(t, projectId, sources, now);
    case CallObserve(o) => ObserveKeeps(t, o);
    case CallUpdate(id, expected, p, e) => UpdateKeeps(t, id, expected, p, e);
    case CallPrepareAdvance(a) => PrepareKeeps(t, a);
    case CallRetireBoundary(id, expected, retirement, at) => RetireKeeps(t, id, expected, retirement, at);
    case CallUpdateCircuit(source, expected, next) => CircuitUpdateKeeps(t, source, expected, next);
  }

  lemma {:induction false} RunKeeps(projectId: Id, calls: seq<Call>)
    ensures Sound(Run(Fresh(projectId), calls))
  {
    if calls != [] {
      RunKeeps(projectId, calls[..|calls| - 1]);
      StepKeeps(Run(Fresh(projectId), calls[..|calls| - 1]), calls[|calls| - 1]);
    }
  }
}
