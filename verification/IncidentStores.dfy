/**
 * The SQLite incident store: every call is one transaction, or a savepoint
 * inside one, over the journal's tables. A call either does what the table
 * functions of JournalSpec say or leaves every table as it was.
 */
module IncidentStores {
  import opened Wrappers
  import opened JournalSpec
  import opened JournalRebaseline

  /** What SQLite answers a statement: done, out of space, or out of space with the whole transaction rolled back. */
  datatype Answer = Done | OutOfSpace | RolledBack

  datatype Observing = Observing(record: Incident, created: bool, conflict: bool)

  class SqliteIncidentStore {
    var tables: Tables
    /** The tables as they were when the transaction and each savepoint inside it began, outermost first. */
    var saved: seq<Tables>
    /** SQLite's answers to the statements still to come; Done once they run out. */
    var answers: seq<Answer>
    var closed: bool

    constructor (tables: Tables, answers: seq<Answer>)
      ensures this.tables == tables && saved == [] && this.answers == answers && !closed
    {
      this.tables, saved, this.answers, closed := tables, [], answers, false;
    }

    /** The transaction is the one there was, or SQLite has rolled all of it back. */
    twostate predicate Within()
      reads this
    {
      && closed == old(closed)
      && (saved == old(saved) || (saved == [] && old(saved) != [] && tables == old(saved)[0]))
    }

    /** Nothing of the call is left: the tables are as they were, or as they were when the enclosing transaction began. */
    twostate predicate Undone()
      reads this
    {
      && closed == old(closed)
      && ((saved == old(saved) && tables == old(tables)) || (saved == [] && old(saved) != [] && tables == old(saved)[0]))
    }

    // ----- statements and transactions ---------------------------------------------

    method NextAnswer() returns (a: Answer)
      modifies this`answers
    {
      if answers == [] { return Done; }
      a := answers[0];
      answers := answers[1..];
    }

    method Execute(next: Tables) returns (f: Option<Refusal>)
      requires saved != []
      modifies this
      ensures f.None? ==> tables == next && saved == old(saved) && closed == old(closed)
      ensures f.Some? ==> f.value == JournalFull && Undone()
    {
      var a := NextAnswer();
      match a {
        case Done => tables := next; return None;
        case OutOfSpace => return Some(JournalFull);
        case RolledBack => tables, saved := saved[0], []; return Some(JournalFull);
      }
    }

    /** A write that needs room is refused before it starts when the journal is near its limit. */
    method Admit() returns (f: Option<Refusal>)
      modifies this`answers
      ensures f.Some? ==> f.value == JournalFull
    {
      var a := NextAnswer();
      return if a == Done then None else Some(JournalFull);
    }

    method Begin()
      modifies this`saved
      ensures saved == old(saved) + [tables]
    {
      saved := saved + [tables];
    }

    /** Ends the innermost write: commits it, or on any failure undoes it unless SQLite already has. */
    method End(failure: Option<Refusal>, ghost before: seq<Tables>) returns (f: Option<Refusal>)
      requires before != [] && (saved == before || (failure.Some? && saved == [] && tables == before[0]))
      modifies this
      ensures closed == old(closed)
      ensures f.None? ==> failure.None? && saved == before[..|before| - 1] && tables == old(tables)
      ensures f.Some? ==> f.value == (if failure.Some? then failure.value else JournalFull)
      ensures f.Some? ==> (saved == before[..|before| - 1] && tables == before[|before| - 1]) || (saved == [] && tables == before[0])
    {
      f := failure;
      if f.None? {
        f := Execute(tables);
        if f.None? { saved := saved[..|saved| - 1]; }
      }
      if f.Some? && saved != [] {
        tables, saved := saved[|saved| - 1], saved[..|saved| - 1];
      }
    }

    // ----- claim -----------------------------------------------------------------------

    method ClaimBody(projectId: Id, sources: seq<Source>, now: Time) returns (f: Option<Refusal>)
      requires saved != [] && !Duplicates(sources)
      modifies this
      ensures Within()
      ensures f.None? ==> saved == old(saved) && JournalSpec.Claim(old(tables), projectId, sources, now) == Ok(tables)
      ensures f.Some? ==> f.value == JournalFull || JournalSpec.Claim(old(tables), projectId, sources, now) == Err(f.value)
    {
      if tables.projectId != projectId { return Some(ProjectMismatch); }
      ghost var start := tables;
      var stored := tables.sources;
      for i := 0 to |stored.order|
        invariant tables == start && saved == old(saved)
        invariant forall k :: 0 <= k < i ==> Configured(sources, stored.order[k]) || OpenIncidents(tables, stored.order[k]) == []
      {
        assert stored.order[i] in start.sources.order;
        if !Configured(sources, stored.order[i]) && OpenIncidents(tables, stored.order[i]) != [] { return Some(SourceRemovedWithOpen); }
      }
      for i := 0 to |sources|
        invariant saved == old(saved) && closed == old(closed)
        invariant ClaimAll(stored, start, sources[..i], now) == Ok(tables)
      {
        assert sources[..i + 1][..i] == sources[..i];
        ghost var met := tables;
        f := ClaimSource(stored, sources[i], now);
        assert ClaimAll(stored, start, sources[..i + 1], now) == ClaimOne(stored, met, sources[i], now);
        if f.Some? {
          if f.value != JournalFull { ClaimStops(stored, start, sources, now, i + 1); }
          return;
        }
      }
      assert sources[..|sources|] == sources;
      f := None;
    }

    method ClaimSource(stored: Table<Source>, s: Source, now: Time) returns (f: Option<Refusal>)
      requires saved != []
      modifies this
      ensures Within()
      ensures f.None? ==> saved == old(saved) && ClaimOne(stored, old(tables), s, now) == Ok(tables)
      ensures f.Some? ==> f.value == JournalFull || ClaimOne(stored, old(tables), s, now) == Err(f.value)
    {
      if s.sourceId !in stored.rows {
        if s.sourceId in tables.sources.rows { return Some(UniqueIndex); }
        f := Execute(tables.(sources := tables.sources.Insert(s.sourceId, s)));
        return;
      }
      if stored.rows[s.sourceId] == s { return None; }
      if OpenIncidents(tables, s.sourceId) != [] { return Some(GenerationChangedWithOpen); }
      f := Execute(tables.(sources := tables.sources.Update(s.sourceId, s)));
      if f.Some? { return; }
      var boundary := BoundaryOf(tables, s.sourceId);
      if boundary.Some? && boundary.value.generation != s.generation {
        f := Execute(SaveBoundary(tables, EndBoundary(boundary.value, GenerationRetirement(s.sourceId, boundary.value.generation, s.generation), now)));
      }
    }

    method Claim(projectId: Id, sources: seq<Source>, now: Time) returns (f: Option<Refusal>)
      modifies this
      ensures f.None? ==> saved == old(saved) && closed == old(closed) && JournalSpec.Claim(old(tables), projectId, sources, now) == Ok(tables)
      ensures f.Some? ==> Undone()
      ensures f.Some? ==> f.value == JournalFull || f.value == JournalClosed || JournalSpec.Claim(old(tables), projectId, sources, now) == Err(f.value)
    {
      var duplicated := ListsTwice(sources);
      if duplicated { return Some(DuplicateSource); }
      if closed { return Some(JournalClosed); }
      Begin();
      ghost var before := saved;
      f := ClaimBody(projectId, sources, now);
      f := End(f, before);
    }

    // ----- observe and update ----------------------------------------------------------------

    method ObserveBody(o: Observation) returns (f: Option<Refusal>)
      requires saved != []
      modifies this
      ensures Within()
      ensures f.None? ==> saved == old(saved) && JournalSpec.Observe(old(tables), o) == Ok(tables)
      ensures f.Some? ==> f.value == JournalFull || JournalSpec.Observe(old(tables), o) == Err(f.value)
    {
      var row := tables.incidents.Get(o.failureId);
      if row.None? && o.sourceId !in tables.sources.rows { return Some(SourceNotClaimed); }
      f := Admit();
      if f.Some? { return; }
      f := Execute(tables.(incidents := if row.None? then tables.incidents.Insert(o.failureId, NewIncident(o))
                                        else tables.incidents.Update(o.failureId, Observed(row.value, o))));
      if f.Some? { return; }
      f := Execute(WithEvent(tables, ObservedEvent(row, o)));
    }

    method Observe(o: Observation) returns (r: Result<Observing, Refusal>)
      modifies this
      ensures r.Ok? ==>
                && saved == old(saved) && closed == old(closed) && JournalSpec.Observe(old(tables), o) == Ok(tables)
                && tables.incidents.Get(o.failureId) == Some(r.value.record)
                && r.value.created == (o.failureId !in old(tables).incidents.rows)
                && r.value.conflict == (o.failureId in old(tables).incidents.rows && Conflicts(old(tables).incidents.rows[o.failureId], o))
      ensures r.Err? ==> Undone()
      ensures r.Err? ==> r.error == JournalFull || r.error == JournalClosed || JournalSpec.Observe(old(tables), o) == Err(r.error)
    {
      if closed { return Err(JournalClosed); }
      Begin();
      ghost var before := saved;
      var row := tables.incidents.Get(o.failureId);
      var f := ObserveBody(o);
      f := End(f, before);
      if f.Some? { return Err(f.value); }
      r := Ok(Observing(tables.incidents.rows[o.failureId], row.None?, row.Some? && Conflicts(row.value, o)));
    }

    method UpdateBody(id: Id, expected: nat, p: Patch, e: Event) returns (f: Option<Refusal>)
      requires saved != []
      modifies this
      ensures Within()
      ensures f.None? ==> saved == old(saved) && JournalSpec.Update(old(tables), id, expected, p, e) == Ok(tables)
      ensures f.Some? ==> f.value == JournalFull || JournalSpec.Update(old(tables), id, expected, p, e) == Err(f.value)
    {
      if id !in tables.incidents.rows { return Some(UnknownIncident); }
      var r := tables.incidents.rows[id];
      if r.revision != expected { return Some(StaleRevision); }
      f := Execute(tables.(incidents := tables.incidents.Update(id, Patched(r, p, e.at))));
      if f.Some? { return; }
      f := Execute(WithEvent(tables, e.(failureId := id)));
    }

    method Update(id: Id, expected: nat, p: Patch, e: Event) returns (r: Result<Incident, Refusal>)
      modifies this
      ensures r.Ok? ==> saved == old(saved) && closed == old(closed) && JournalSpec.Update(old(tables), id, expected, p, e) == Ok(tables)
                        && tables.incidents.Get(id) == Some(r.value)
      ensures r.Err? ==> Undone()
      ensures r.Err? ==> r.error == JournalFull || r.error == JournalClosed || JournalSpec.Update(old(tables), id, expected, p, e) == Err(r.error)
    {
      if closed { return Err(JournalClosed); }
      Begin();
      ghost var before := saved;
      var f := UpdateBody(id, expected, p, e);
      f := End(f, before);
      if f.Some? { return Err(f.value); }
      r := Ok(tables.incidents.rows[id]);
    }

    // ----- boundaries and the circuit ------------------------------------------------------------

    method PrepareAdvanceBody(a: Advance) returns (f: Option<Refusal>)
      requires saved != [] && AdvanceInputRefusal(a).None?
      modifies this
      ensures Within()
      ensures f.None? ==> saved == old(saved) && JournalSpec.PrepareAdvance(old(tables), a) == Ok(tables)
      ensures f.Some? ==> f.value == JournalFull || JournalSpec.PrepareAdvance(old(tables), a) == Err(f.value)
    {
      f := AdvanceStateRefusal(tables, a);
      if f.Some? { return; }
      var record := tables.incidents.rows[a.failureId];
      var prior := BoundaryOf(tables, record.sourceId);
      f := Admit();
      if f.Some? { return; }
      if prior.Some? {
        f := Execute(Superseding(tables, prior, a.at));
        if f.Some? { return; }
      }
      var inserted := InsertBoundary(tables, NextBoundary(a, record, prior));
      if inserted.Err? { return Some(inserted.error); }
      f := Execute(inserted.value);
      if f.Some? { return; }
      f := Execute(tables.(incidents := tables.incidents.Update(a.failureId, AdvancedIncident(a, record))));
      if f.Some? { return; }
      f := Execute(WithEvent(tables, AdvanceEvent(a)));
      if f.Some? { return; }
      f := CountAdvance(record, a.at);
    }

    method CountAdvance(record: Incident, at: Time) returns (f: Option<Refusal>)
      requires saved != []
      modifies this
      ensures Within()
      ensures f.None? ==> saved == old(saved) && AdvanceCounted(old(tables), record, at) == Ok(tables)
      ensures f.Some? ==> f.value == JournalFull || AdvanceCounted(old(tables), record, at) == Err(f.value)
    {
      var circuit := CircuitOf(tables, record.sourceId);
      var advances := circuit.advances;
      var earlier := EarlierTime(tables, record);
      if earlier.Some? {
        advances := Spliced(advances, earlier.value);
      }
      f := StoreCircuit(record.sourceId, circuit.(advances := CapAdvances(advances + [at]), revision := circuit.revision + 1));
    }

    method StoreCircuit(source: Id, circuit: Circuit) returns (f: Option<Refusal>)
      requires saved != []
      modifies this
      ensures Within()
      ensures f.None? ==> saved == old(saved) && SaveCircuit(old(tables), source, circuit) == Ok(tables)
      ensures f.Some? ==> f.value == JournalFull || SaveCircuit(old(tables), source, circuit) == Err(f.value)
    {
      if source !in tables.sources.rows { return Some(SourceNotClaimed); }
      f := Execute(tables.(circuits := tables.circuits[source := circuit]));
    }

    method PrepareAdvance(a: Advance) returns (r: Result<(Incident, Boundary), Refusal>)
      modifies this
      ensures r.Ok? ==> saved == old(saved) && closed == old(closed) && JournalSpec.PrepareAdvance(old(tables), a) == Ok(tables)
                        && tables.incidents.Get(a.failureId) == Some(r.value.0) && tables.boundaries.Get(a.boundaryId) == Some(r.value.1)
      ensures r.Err? ==> Undone()
      ensures r.Err? ==> r.error == JournalFull || r.error == JournalClosed || JournalSpec.PrepareAdvance(old(tables), a) == Err(r.error)
    {
      var f := AdvanceInputRefusal(a);
      if f.Some? { return Err(f.value); }
      if closed { return Err(JournalClosed); }
      Begin();
      ghost var before := saved;
      f := PrepareAdvanceBody(a);
      f := End(f, before);
      if f.Some? { return Err(f.value); }
      r := Ok((tables.incidents.rows[a.failureId], tables.boundaries.rows[a.boundaryId]));
    }

    method RetireBoundaryBody(id: Id, expected: nat, retirement: Retirement, at: Time) returns (f: Option<Refusal>)
      requires saved != []
      modifies this
      ensures Within()
      ensures f.None? ==> saved == old(saved) && JournalSpec.RetireBoundary(old(tables), id, expected, retirement, at) == Ok(tables)
      ensures f.Some? ==> f.value == JournalFull || JournalSpec.RetireBoundary(old(tables), id, expected, retirement, at) == Err(f.value)
    {
      if id !in tables.boundaries.rows { return Some(UnknownBoundary); }
      var boundary := tables.boundaries.rows[id];
      if boundary.revision != expected { return Some(StaleRevision); }
      if retirement.mode == BySuperseded { return Some(SupersedeRefused); }
      if boundary.state != InForce { return Some(NotInForce); }
      f := FindBlocking(tables.incidents.rows, boundary.failureIds);
      if f.Some? { return; }
      f := Execute(SaveBoundary(tables, EndBoundary(boundary, retirement, at)));
    }

    method RetireBoundary(id: Id, expected: nat, retirement: Retirement, at: Time) returns (r: Result<Boundary, Refusal>)
      modifies this
      ensures r.Ok? ==> saved == old(saved) && closed == old(closed) && JournalSpec.RetireBoundary(old(tables), id, expected, retirement, at) == Ok(tables)
                        && r.value == EndBoundary(old(tables).boundaries.rows[id], retirement, at)
      ensures r.Err? ==> Undone()
      ensures r.Err? ==> r.error == JournalFull || r.error == JournalClosed || JournalSpec.RetireBoundary(old(tables), id, expected, retirement, at) == Err(r.error)
    {
      if closed { return Err(JournalClosed); }
      Begin();
      ghost var before := saved;
      var row := tables.boundaries.Get(id);
      var f := RetireBoundaryBody(id, expected, retirement, at);
      f := End(f, before);
      if f.Some? { return Err(f.value); }
      r := Ok(EndBoundary(row.value, retirement, at));
    }

    method UpdateCircuit(source: Id, expected: nat, next: Circuit) returns (r: Result<Circuit, Refusal>)
      modifies this
      ensures r.Ok? ==> saved == old(saved) && closed == old(closed) && JournalSpec.UpdateCircuit(old(tables), source, expected, next) == Ok(tables)
                        && CircuitOf(tables, source) == r.value
      ensures r.Err? ==> Undone()
      ensures r.Err? ==> r.error == JournalFull || r.error == JournalClosed || JournalSpec.UpdateCircuit(old(tables), source, expected, next) == Err(r.error)
    {
      if closed { return Err(JournalClosed); }
      Begin();
      ghost var before := saved;
      var f: Option<Refusal> := Some(StaleRevision);
      var updated := next.(advances := CapAdvances(next.advances), revision := expected + 1);
      if CircuitOf(tables, source).revision == expected {
        f := StoreCircuit(source, updated);
      }
      f := End(f, before);
      r := if f.Some? then Err(f.value) else Ok(updated);
    }

    // ----- rebaseline ---------------------------------------------------------------------------------

    method RebaselineBody(q: Request) returns (f: Option<Refusal>, outcome: Outcome)
      requires saved != []
      modifies this
      ensures Within()
      ensures f.None? ==> saved == old(saved) && JournalRebaseline.Rebaseline(old(tables), q) == Ok((tables, outcome))
      ensures f.Some? ==> f.value == JournalFull || f.value == JournalClosed || JournalRebaseline.Rebaseline(old(tables), q) == Err(f.value)
    {
      ghost var start := tables;
      var stale := StaleIncidents(tables, q.source);
      var staleBoundary := StaleBoundary(tables, q.source);
      outcome := Nothing;
      if stale == [] && staleBoundary.None? { return None, Nothing; }
      for i := 0 to |stale|
        invariant saved == old(saved) && closed == old(closed)
        invariant CloseAll(start, stale[..i], q) == Ok(tables)
      {
        assert stale[..i + 1][..i] == stale[..i];
        ghost var met := tables;
        var closing := Update(stale[i].failureId, stale[i].revision, ClosingPatch(stale[i], q.source), ClosingEvent(stale[i], q));
        assert CloseAll(start, stale[..i + 1], q) == CloseOne(met, stale[i], q);
        if closing.Err? {
          if closing.error != JournalFull && closing.error != JournalClosed { CloseStops(start, stale, q, i + 1); }
          return Some(closing.error), Nothing;
        }
      }
      assert stale[..|stale|] == stale;
      f := Claim(q.projectId, SourcesWith(tables.sources, tables.sources.order, q.source), q.now);
      outcome := Rebaselined(IdsOf(stale), staleBoundary);
    }

    /** All or nothing: the whole rebaseline is committed, or the tables are as they were, whatever failed. */
    method Rebaseline(q: Request) returns (r: Result<Outcome, Refusal>)
      requires saved == []
      modifies this
      ensures saved == [] && closed == old(closed)
      ensures r.Ok? ==> JournalRebaseline.Rebaseline(old(tables), q) == Ok((tables, r.value))
      ensures r.Err? ==> tables == old(tables)
      ensures r.Err? ==> r.error == JournalFull || r.error == JournalClosed || JournalRebaseline.Rebaseline(old(tables), q) == Err(r.error)
    {
      if closed { return Err(JournalClosed); }
      Begin();
      ghost var before := saved;
      var f, outcome := RebaselineBody(q);
      f := End(f, before);
      r := if f.Some? then Err(f.value) else Ok(outcome);
    }
  }

  // ----- loops over plain values ------------------------------------------------------------------------

  /** validateSources: a set of the IDs seen so far finds the first repeat. */
  method ListsTwice(sources: seq<Source>) returns (twice: bool)
    ensures twice == Duplicates(sources)
  {
    var seen: set<Id> := {};
    for i := 0 to |sources|
      invariant forall id :: id in seen <==> exists k :: 0 <= k < i && sources[k].sourceId == id
      invariant forall j, k :: 0 <= j < k < i ==> sources[j].sourceId != sources[k].sourceId
    {
      if sources[i].sourceId in seen { return true; }
      seen := seen + {sources[i].sourceId};
    }
    return false;
  }

  method FindBlocking(incidents: map<Id, Incident>, ids: seq<Id>) returns (f: Option<Refusal>)
    ensures f == FirstBlocking(incidents, ids)
  {
    for i := 0 to |ids|
      invariant FirstBlocking(incidents, ids) == FirstBlocking(incidents, ids[i..])
    {
      f := Blocking(incidents, ids[i]);
      if f.Some? { return; }
    }
    return None;
  }

  /** The first index of the time, spliced out. */
  method Spliced(advances: seq<Time>, at: Time) returns (r: seq<Time>)
    ensures r == WithoutFirst(advances, at)
  {
    for i := 0 to |advances|
      invariant WithoutFirst(advances, at) == advances[..i] + WithoutFirst(advances[i..], at)
    {
      var rest := advances[i..];
      assert rest[0] == advances[i] && rest[1..] == advances[i + 1..];
      if advances[i] == at { return advances[..i] + advances[i + 1..]; }
      PastOne(advances[..i], advances[i], WithoutFirst(rest[1..], at));
      assert advances[..i + 1] == advances[..i] + [advances[i]];
    }
    assert advances[|advances|..] == [] && advances[..|advances|] + [] == advances;
    return advances;
  }

  lemma {:induction false} PastOne(front: seq<Time>, x: Time, rest: seq<Time>)
    ensures front + ([x] + rest) == front + [x] + rest
  {
  }

  lemma {:induction false} ClaimStops(stored: Table<Source>, t: Tables, sources: seq<Source>, now: Time, n: nat)
    requires n <= |sources| && ClaimAll(stored, t, sources[..n], now).Err?
    ensures ClaimAll(stored, t, sources, now) == ClaimAll(stored, t, sources[..n], now)
    decreases |sources|
  {
    if n == |sources| {
      assert sources[..n] == sources;
    } else {
      assert sources[..|sources| - 1][..n] == sources[..n];
      ClaimStops(stored, t, sources[..|sources| - 1], now, n);
    }
  }

  lemma {:induction false} CloseStops(t: Tables, stale: seq<Incident>, q: Request, n: nat)
    requires n <= |stale| && CloseAll(t, stale[..n], q).Err?
    ensures CloseAll(t, stale, q) == CloseAll(t, stale[..n], q)
    decreases |stale|
  {
    if n == |stale| {
      assert stale[..n] == stale;
    } else {
      assert stale[..|stale| - 1][..n] == stale[..n];
      CloseStops(t, stale[..|stale| - 1], q, n);
    }
  }
}
