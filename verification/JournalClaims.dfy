/** Exactly when a claim is accepted, and exactly what it then changes. */
module JournalClaims {
  import opened Wrappers
  import opened JournalSpec
  import opened JournalSafety

  /** A boundary after the sources were recorded: retired if it was in force for another generation. */
  function Reclaimed(b: Boundary, sources: map<Id, Source>, now: Time): Boundary {
    if b.state == InForce && b.sourceId in sources && b.generation != sources[b.sourceId].generation
    then EndBoundary(b, GenerationRetirement(b.sourceId, b.generation, sources[b.sourceId].generation), now)
    else b
  }

  /** u is t with its sources replaced, and every boundary of another generation retired. */
  predicate ClaimedAs(t: Tables, u: Tables, now: Time) {
    && u == t.(sources := u.sources, boundaries := u.boundaries)
    && u.boundaries.order == t.boundaries.order
    && u.boundaries.rows.Keys == t.boundaries.rows.Keys
    && forall k <- t.boundaries.rows :: u.boundaries.rows[k] == Reclaimed(t.boundaries.rows[k], u.sources.rows, now)
  }

  /** The recorded sources, with the configured ones in place of theirs. */
  function Recorded(stored: map<Id, Source>, sources: seq<Source>): map<Id, Source> {
    if sources == [] then stored
    else Recorded(stored, sources[..|sources| - 1])[sources[|sources| - 1].sourceId := sources[|sources| - 1]]
  }

  lemma {:induction false} RecordedIs(stored: map<Id, Source>, sources: seq<Source>)
    requires !Duplicates(sources)
    ensures Recorded(stored, sources).Keys == stored.Keys + Ids(sources)
    ensures forall s <- sources :: Recorded(stored, sources)[s.sourceId] == s
    ensures forall id <- stored :: !Configured(sources, id) ==> Recorded(stored, sources)[id] == stored[id]
    decreases |sources|
  {
    if sources != [] {
      var before, last := sources[..|sources| - 1], sources[|sources| - 1];
      LastApart(sources);
      RecordedIs(stored, before);
      forall s <- sources ensures Recorded(stored, sources)[s.sourceId] == s {
        if s != last { assert s in before; }
      }
      forall id <- stored | !Configured(sources, id) ensures Recorded(stored, sources)[id] == stored[id] {
        assert last in sources;
        assert !Configured(before, id);
      }
    }
  }

  /** A source may be recorded as s: it is new, it is unchanged, or nothing of it is open. */
  predicate Recordable(t: Tables, s: Source) {
    s.sourceId in t.sources.rows && t.sources.rows[s.sourceId] != s ==> !HasOpen(t, s.sourceId)
  }

  lemma ReidentifiedIs(t: Tables, s: Source, now: Time)
    requires BoundariesKeyed(t.boundaries, t.sources) && OneInForce(t.boundaries.rows) && Current(t.boundaries.rows, t.sources.rows)
    requires s.sourceId in t.sources.rows
    ensures var u := Reidentified(t, s, now); ClaimedAs(t, u, now) && u.sources.rows == t.sources.rows[s.sourceId := s]
  {
    var u := Reidentified(t, s, now);
    BoundaryOfIs(t, s.sourceId);
    forall k <- t.boundaries.rows ensures u.boundaries.rows[k] == Reclaimed(t.boundaries.rows[k], u.sources.rows, now) {
      var b := t.boundaries.rows[k];
      if b.sourceId != s.sourceId && b.state == InForce {
        assert b.generation == u.sources.rows[b.sourceId].generation;
      }
    }
  }

  lemma ClaimOneIs(t: Tables, u: Tables, s: Source, now: Time)
    requires Sound(u) && u.incidents == t.incidents && u.sources.Get(s.sourceId) == t.sources.Get(s.sourceId)
    ensures match ClaimOne(t.sources, u, s, now)
            case Ok(v) => Recordable(t, s) && ClaimedAs(u, v, now) && v.sources.rows == u.sources.rows[s.sourceId := s]
            case Err(e) => !Recordable(t, s) && e == GenerationChangedWithOpen
  {
    OpenIncidentsAre(u, s.sourceId);
    assert HasOpen(u, s.sourceId) == HasOpen(t, s.sourceId);
    if s.sourceId !in t.sources.rows {
      forall k <- u.boundaries.rows ensures u.boundaries.rows[k].sourceId in u.sources.rows {}
    } else if t.sources.rows[s.sourceId] != s {
      ReidentifiedIs(u, s, now);
    }
  }

  /** Retiring a boundary for the sources recorded first, and then for one more, retires it for all of them. */
  lemma ReclaimedTwice(b: Boundary, stored: map<Id, Source>, first: map<Id, Source>, s: Source, now: Time)
    requires b.sourceId in stored && (b.state == InForce ==> b.generation == stored[b.sourceId].generation)
    requires b.sourceId in first && (s.sourceId in first <==> s.sourceId in stored) && (s.sourceId in first ==> first[s.sourceId] == stored[s.sourceId])
    ensures Reclaimed(Reclaimed(b, first, now), first[s.sourceId := s], now) == Reclaimed(b, first[s.sourceId := s], now)
  {
  }

  /** Recording sources one after another retires what recording them together does. */
  lemma ClaimedTwice(t: Tables, u: Tables, v: Tables, s: Source, now: Time)
    requires BoundariesKeyed(t.boundaries, t.sources) && Current(t.boundaries.rows, t.sources.rows)
    requires ClaimedAs(t, u, now) && ClaimedAs(u, v, now)
    requires u.sources.rows.Keys >= t.sources.rows.Keys && u.sources.Get(s.sourceId) == t.sources.Get(s.sourceId)
    requires v.sources.rows == u.sources.rows[s.sourceId := s]
    ensures ClaimedAs(t, v, now)
  {
    forall k <- t.boundaries.rows ensures v.boundaries.rows[k] == Reclaimed(t.boundaries.rows[k], v.sources.rows, now) {
      ReclaimedTwice(t.boundaries.rows[k], t.sources.rows, u.sources.rows, s, now);
      assert v.boundaries.rows[k] == Reclaimed(u.boundaries.rows[k], v.sources.rows, now);
    }
  }

  lemma {:induction false} ClaimAllIs(t: Tables, sources: seq<Source>, now: Time)
    requires Sound(t) && !Duplicates(sources)
    ensures match ClaimAll(t.sources, t, sources, now)
            case Ok(u) => (forall s <- sources :: Recordable(t, s)) && ClaimedAs(t, u, now) && u.sources.rows == Recorded(t.sources.rows, sources)
            case Err(e) => !(forall s <- sources :: Recordable(t, s)) && e == GenerationChangedWithOpen
    decreases |sources|
  {
    if sources == [] {
      forall k <- t.boundaries.rows ensures t.boundaries.rows[k] == Reclaimed(t.boundaries.rows[k], t.sources.rows, now) {}
    } else {
      var before, s := sources[..|sources| - 1], sources[|sources| - 1];
      assert sources == before + [s];
      LastApart(sources);
      ClaimAllIs(t, before, now);
      ClaimAllKeeps(t, before, now);
      RecordedIs(t.sources.rows, before);
      var r := ClaimAll(t.sources, t, before, now);
      if r.Ok? {
        assert r.value.sources.Get(s.sourceId) == t.sources.Get(s.sourceId) by {
          assert !Configured(before, s.sourceId);
        }
        ClaimOneIs(t, r.value, s, now);
        var l := ClaimOne(t.sources, r.value, s, now);
        if l.Ok? { ClaimedTwice(t, r.value, l.value, s, now); }
      }
    }
  }

  /** Why a claim is refused, read off its arguments and the tables it meets. */
  function ClaimRefusal(t: Tables, projectId: Id, sources: seq<Source>): Option<Refusal> {
    if Duplicates(sources) then Some(DuplicateSource)
    else if t.projectId != projectId then Some(ProjectMismatch)
    else if exists id <- t.sources.rows :: !Configured(sources, id) && HasOpen(t, id) then Some(SourceRemovedWithOpen)
    else if exists s <- sources :: !Recordable(t, s) then Some(GenerationChangedWithOpen)
    else None
  }

  /**
   * A claim is refused exactly for those reasons, and otherwise records the configured
   * sources, retires every boundary in force for another generation, and changes nothing else.
   */
  lemma ClaimExact(t: Tables, projectId: Id, sources: seq<Source>, now: Time)
    requires Sound(t)
    ensures match Claim(t, projectId, sources, now)
            case Ok(u) => ClaimRefusal(t, projectId, sources).None? && ClaimedAs(t, u, now) && u.sources.rows == Recorded(t.sources.rows, sources)
            case Err(e) => ClaimRefusal(t, projectId, sources) == Some(e)
  {
    if !Duplicates(sources) {
      forall id: Id ensures OpenIncidents(t, id) != [] <==> HasOpen(t, id) {
        OpenIncidentsAre(t, id);
      }
      ClaimAllIs(t, sources, now);
    }
  }
}
