/**
 * A run in which the circuit counts two distinct incidents once: the circuit
 * opens, an operator reopens it, and an incident advanced before that is advanced
 * again while another incident's entry carries the time of its earlier advance.
 */
module JournalMiscount {
  import opened Wrappers
  import opened JournalSpec
  import opened JournalSafety
  import opened JournalHistory
  import opened JournalCircuit

  const SOURCE := "s"

  function Sighting(id: Id): Observation {
    Observation(id, SOURCE, "g", "", Diagnosis("decode", "validate", "E", None, ""), QuarantineResync, 1)
  }

  function Attempt(t: Tables, id: Id, boundaryId: Id, at: Time): Call
    requires id in t.incidents.rows
  {
    CallPrepareAdvance(Advance(id, t.incidents.rows[id].revision, boundaryId, Some("{}"), IdOf(BoundaryOf(t, SOURCE)),
                               Guard("recoverable", None, None, at), at))
  }

  /** An open incident of the source's recorded generation. */
  predicate Ready(t: Tables, id: Id) {
    && id in t.incidents.rows && t.incidents.rows[id].state == Open && t.incidents.rows[id].sourceId == SOURCE
    && t.incidents.rows[id].generation == "g"
    && t.sources.Get(SOURCE) == Some(Source(SOURCE, "g", Kafka))
  }

  lemma Begins() returns (t: Tables, calls: seq<Call>)
    ensures t == Run(Fresh("p"), calls) && Sound(t) && Window(Fresh("p"), calls, SOURCE) == Some([])
    ensures Ready(t, "a") && Ready(t, "b") && t.incidents.rows["a"].boundaryId.None? && t.incidents.rows["b"].boundaryId.None?
    ensures t.boundaries.rows == map[] && CircuitOf(t, SOURCE).advances == []
  {
    var start := Fresh("p");
    var source := Source(SOURCE, "g", Kafka);
    var claim, seeA, seeB := CallClaim("p", [source], 0), CallObserve(Sighting("a")), CallObserve(Sighting("b"));
    Extend(start, [], claim);
    Extend(start, [claim], seeA);
    Extend(start, [claim, seeA], seeB);
    calls := [claim, seeA, seeB];
    assert [] + [claim] == [claim] && [claim] + [seeA] == [claim, seeA] && [claim, seeA] + [seeB] == calls;
    assert ClaimAll(start.sources, start, [source][..0], 0) == Ok(start);
    assert Claim(start, "p", [source], 0) == Ok(start.(sources := start.sources.Insert(SOURCE, source)));
    t := Run(start, calls);
    RunKeeps("p", calls);
  }

  lemma Extend(t: Tables, calls: seq<Call>, c: Call)
    ensures Run(t, calls + [c]) == After(Run(t, calls), c)
    ensures Window(t, calls + [c], SOURCE) == WindowAfter(Run(t, calls), c, Window(t, calls, SOURCE), SOURCE)
  {
    assert (calls + [c])[..|calls + [c]| - 1] == calls;
  }

  /** Where a run has got to: the window, the circuit's list, the incidents' earlier times and the boundary IDs taken. */
  predicate At(calls: seq<Call>, w: seq<Counted>, advances: seq<Time>, a: Option<Time>, b: Option<Time>, taken: set<Id>) {
    var t := Run(Fresh("p"), calls);
    && Window(Fresh("p"), calls, SOURCE) == Some(w) && CircuitOf(t, SOURCE).advances == advances
    && Ready(t, "a") && EarlierTime(t, t.incidents.rows["a"]) == a
    && Ready(t, "b") && EarlierTime(t, t.incidents.rows["b"]) == b
    && t.boundaries.rows.Keys == taken
  }

  /** An attempt on a ready incident is accepted. */
  lemma Accepted(t: Tables, id: Id, boundaryId: Id, at: Time)
    requires Sound(t) && Ready(t, id) && boundaryId != "" && boundaryId !in t.boundaries.rows
    ensures PrepareAdvance(t, Attempt(t, id, boundaryId, at).advance).Ok?
  {
    AdvanceKeeps(t, Attempt(t, id, boundaryId, at).advance);
  }

  /** What it does to the incidents and the boundaries' times. */
  lemma AttemptedRows(t: Tables, id: Id, boundaryId: Id, at: Time)
    requires Sound(t) && Ready(t, id) && boundaryId != "" && boundaryId !in t.boundaries.rows
    ensures var u := After(t, Attempt(t, id, boundaryId, at));
            && Ready(u, id) && EarlierTime(u, u.incidents.rows[id]) == Some(at)
            && (forall k <- t.incidents.rows :: k != id && Ready(t, k) ==> Ready(u, k) && EarlierTime(u, u.incidents.rows[k]) == EarlierTime(t, t.incidents.rows[k]))
            && u.boundaries.rows.Keys == t.boundaries.rows.Keys + {boundaryId}
  {
    var a := Attempt(t, id, boundaryId, at).advance;
    AttemptedShape(t, id, boundaryId, at);
    assert Named(t.boundaries.rows, t.incidents.rows);
    AttemptedTimes(t, After(t, CallPrepareAdvance(a)), a, NextBoundary(a, t.incidents.rows[id], BoundaryOf(t, SOURCE)));
  }

  lemma AttemptedShape(t: Tables, id: Id, boundaryId: Id, at: Time)
    requires Sound(t) && Ready(t, id) && boundaryId != "" && boundaryId !in t.boundaries.rows
    ensures var c := Attempt(t, id, boundaryId, at);
            var u, r := After(t, c), t.incidents.rows[id];
            && u.sources == t.sources && u.incidents.rows == t.incidents.rows[id := AdvancedIncident(c.advance, r)]
            && SupersededBy(t, u, NextBoundary(c.advance, r, BoundaryOf(t, SOURCE)))
  {
    Accepted(t, id, boundaryId, at);
    AdvanceShape(t, Attempt(t, id, boundaryId, at).advance);
  }

  lemma AttemptedTimes(t: Tables, u: Tables, a: Advance, n: Boundary)
    requires Named(t.boundaries.rows, t.incidents.rows) && Ready(t, a.failureId) && u.sources == t.sources
    requires SupersededBy(t, u, n) && n.boundaryId == a.boundaryId && n.createdAt == a.at
    requires u.incidents.rows == t.incidents.rows[a.failureId := AdvancedIncident(a, t.incidents.rows[a.failureId])]
    ensures Ready(u, a.failureId) && EarlierTime(u, u.incidents.rows[a.failureId]) == Some(a.at)
    ensures forall k <- t.incidents.rows :: k != a.failureId && Ready(t, k) ==>
              Ready(u, k) && EarlierTime(u, u.incidents.rows[k]) == EarlierTime(t, t.incidents.rows[k])
    ensures u.boundaries.rows.Keys == t.boundaries.rows.Keys + {a.boundaryId}
  {
  }

  lemma AttemptedAccepted(calls: seq<Call>, id: Id, boundaryId: Id, at: Time)
    requires var t := Run(Fresh("p"), calls); Ready(t, id) && boundaryId != "" && boundaryId !in t.boundaries.rows
    ensures var t := Run(Fresh("p"), calls); Step(t, Attempt(t, id, boundaryId, at)).Ok?
  {
    RunKeeps("p", calls);
    Accepted(Run(Fresh("p"), calls), id, boundaryId, at);
  }

  /** What it does to the circuit's list. */
  lemma AttemptedCircuit(calls: seq<Call>, id: Id, boundaryId: Id, at: Time)
    requires var t := Run(Fresh("p"), calls); Ready(t, id) && boundaryId != "" && boundaryId !in t.boundaries.rows
    ensures var t := Run(Fresh("p"), calls);
            CircuitOf(After(t, Attempt(t, id, boundaryId, at)), SOURCE).advances ==
            CountedAdvance(CircuitOf(t, SOURCE).advances, EarlierTime(t, t.incidents.rows[id]), at)
  {
    var t := Run(Fresh("p"), calls);
    AttemptedAccepted(calls, id, boundaryId, at);
    RunKeeps("p", calls);
    AdvanceCounts(t, Attempt(t, id, boundaryId, at).advance, SOURCE);
  }

  lemma Attempted(calls: seq<Call>, w: seq<Counted>, advances: seq<Time>, a: Option<Time>, b: Option<Time>, taken: set<Id>,
                  id: Id, boundaryId: Id, at: Time) returns (c: Call)
    requires At(calls, w, advances, a, b, taken) && (id == "a" || id == "b") && boundaryId != "" && boundaryId !in taken && |w| < 20
    ensures At(calls + [c], Without(w, id) + [Counted(id, at)], CountedAdvance(advances, if id == "a" then a else b, at),
               if id == "a" then Some(at) else a, if id == "b" then Some(at) else b, taken + {boundaryId})
  {
    var t := Run(Fresh("p"), calls);
    c := Attempt(t, id, boundaryId, at);
    var u := After(t, c);
    AttemptedAccepted(calls, id, boundaryId, at);
    var w' := Without(w, id) + [Counted(id, at)];
    assert Run(Fresh("p"), calls + [c]) == u && Window(Fresh("p"), calls + [c], SOURCE) == Some(w') by {
      Extend(Fresh("p"), calls, c);
      NoLonger(w, id);
    }
    AttemptedCircuit(calls, id, boundaryId, at);
    assert && Ready(u, "a") && EarlierTime(u, u.incidents.rows["a"]) == (if id == "a" then Some(at) else a)
           && Ready(u, "b") && EarlierTime(u, u.incidents.rows["b"]) == (if id == "b" then Some(at) else b)
           && u.boundaries.rows.Keys == taken + {boundaryId} by {
      RunKeeps("p", calls);
      AttemptedRows(t, id, boundaryId, at);
    }
  }

  lemma {:induction false} NoLonger(w: seq<Counted>, id: Id)
    ensures |Without(w, id)| <= |w|
  {
    if w != [] { NoLonger(w[1..], id); }
  }

  /** An update of the circuit at its revision, which touches nothing else. */
  lemma Updated(calls: seq<Call>, next: Circuit) returns (c: Call)
    requires var t := Run(Fresh("p"), calls); Ready(t, "a") && Ready(t, "b")
    ensures var t, u := Run(Fresh("p"), calls), Run(Fresh("p"), calls + [c]);
            && u == t.(circuits := u.circuits)
            && CircuitOf(u, SOURCE).mode == next.mode && CircuitOf(u, SOURCE).advances == CapAdvances(next.advances)
            && Window(Fresh("p"), calls + [c], SOURCE) == if next.advances == [] then Some([]) else None
  {
    var t := Run(Fresh("p"), calls);
    c := CallUpdateCircuit(SOURCE, CircuitOf(t, SOURCE).revision, next);
    Extend(Fresh("p"), calls, c);
    assert Step(t, c).Ok?;
  }

  /** The circuit opens with its recent advances, and then an operator reopens it. */
  lemma TrippedAndReopened(calls: seq<Call>, w: seq<Counted>, advances: seq<Time>, a: Option<Time>, b: Option<Time>, taken: set<Id>)
      returns (trip: Call, reopen: Call)
    requires At(calls, w, advances, a, b, taken) && advances != []
    ensures At(calls + [trip] + [reopen], [], [], a, b, taken)
    ensures CircuitOf(Run(Fresh("p"), calls + [trip]), SOURCE).mode == CircuitOpen
  {
    trip := Updated(calls, Circuit(CircuitOpen, advances, Some(5), Some("distinct automatic advances"), 0));
    assert Ready(Run(Fresh("p"), calls + [trip]), "a") && Ready(Run(Fresh("p"), calls + [trip]), "b");
    reopen := Updated(calls + [trip], Circuit(CircuitClosed, [], None, Some("reopened by an operator"), 0));
  }

  /** The windows and lists the run goes through. */
  lemma Passes()
    ensures Without([], "a") + [Counted("a", 5)] == [Counted("a", 5)] && Without([], "b") + [Counted("b", 5)] == [Counted("b", 5)]
    ensures Without([Counted("b", 5)], "a") + [Counted("a", 6)] == [Counted("b", 5), Counted("a", 6)]
    ensures CountedAdvance([], None, 5) == [5] && CountedAdvance([5], Some(5), 6) == [6]
  {
    assert Without([Counted("b", 5)], "a") == [Counted("b", 5)];
    assert WithoutFirst([5], 5) == [];
  }

  /** One incident is advanced past. */
  lemma FirstAdvanced() returns (calls: seq<Call>)
    ensures At(calls, [Counted("a", 5)], [5], Some(5), None, {"1"})
  {
    var t;
    t, calls := Begins();
    assert At(calls, [], [], None, None, {});
    Passes();
    var first := Attempted(calls, [], [], None, None, {}, "a", "1", 5);
    assert {} + {"1"} == {"1"};
    calls := calls + [first];
  }

  /** Then the circuit opens, it is reopened, and another incident is advanced past. */
  lemma SecondAdvanced() returns (calls: seq<Call>)
    ensures At(calls, [Counted("b", 5)], [5], Some(5), Some(5), {"1", "2"})
  {
    calls := FirstAdvanced();
    var trip, reopen := TrippedAndReopened(calls, [Counted("a", 5)], [5], Some(5), None, {"1"});
    calls := calls + [trip] + [reopen];
    Passes();
    var second := Attempted(calls, [], [], Some(5), None, {"1"}, "b", "2", 5);
    assert {"1"} + {"2"} == {"1", "2"};
    calls := calls + [second];
  }

  /** Two distinct incidents advanced past since the circuit was reopened, and one entry. */
  lemma CircuitMiscounts() returns (calls: seq<Call>)
    ensures var w := Window(Fresh("p"), calls, SOURCE);
            w.Some? && |w.value| == 2 && |CircuitOf(Run(Fresh("p"), calls), SOURCE).advances| == 1
  {
    calls := SecondAdvanced();
    Passes();
    var again := Attempted(calls, [Counted("b", 5)], [5], Some(5), Some(5), {"1", "2"}, "a", "3", 6);
    calls := calls + [again];
  }
}
