/**
 * A run after which a rebaseline is refused: the source is recorded at one
 * generation, and incidents of that one and of the next are both open.
 */
module JournalRefusal {
  import opened Wrappers
  import opened JournalSpec
  import opened JournalSafety
  import opened JournalRebaseline

  const RECORDED := Source("s", "1", Kafka)
  const CONFIGURED := Source("s", "2", Kafka)

  function Sighting(id: Id, generation: string): Observation {
    Observation(id, "s", generation, "", Diagnosis("decode", "validate", "E", None, ""), Hold, 1)
  }

  /** The source is claimed, and an incident of each generation is observed. */
  function Calls(): seq<Call> {
    [CallClaim("p", [RECORDED], 0), CallObserve(Sighting("a", "1")), CallObserve(Sighting("b", "2"))]
  }

  lemma Claimed()
    ensures Run(Fresh("p"), Calls()[..1]) == Fresh("p").(sources := Table(map["s" := RECORDED], ["s"]))
  {
    var start := Fresh("p");
    assert Calls()[..1][..0] == [] && Run(start, Calls()[..1][..0]) == start;
    assert Calls()[..1][0] == CallClaim("p", [RECORDED], 0);
    assert ClaimAll(start.sources, start, [RECORDED][..0], 0) == Ok(start);
    assert Claim(start, "p", [RECORDED], 0) == Ok(start.(sources := start.sources.Insert("s", RECORDED)));
    assert [] + ["s"] == ["s"];
  }

  /** A new incident of the source stands beside those there were. */
  lemma ObservedNew(t: Tables, o: Observation)
    requires o.failureId !in t.incidents.rows && o.sourceId in t.sources.rows
    ensures var u := After(t, CallObserve(o));
            u.incidents.rows == t.incidents.rows[o.failureId := NewIncident(o)] && u.sources == t.sources && u.boundaries == t.boundaries
            && u.projectId == t.projectId
  {
  }

  lemma Observed() returns (t: Tables)
    ensures t == Run(Fresh("p"), Calls()) && t.projectId == "p" && t.sources.rows == map["s" := RECORDED]
    ensures t.incidents.rows == map["a" := NewIncident(Sighting("a", "1")), "b" := NewIncident(Sighting("b", "2"))]
  {
    var start, calls := Fresh("p"), Calls();
    Claimed();
    var t1 := Run(start, calls[..1]);
    assert calls[..2][..1] == calls[..1] && calls[..2][1] == CallObserve(Sighting("a", "1"));
    ObservedNew(t1, Sighting("a", "1"));
    var t2 := Run(start, calls[..2]);
    assert calls[..3][..2] == calls[..2] && calls[..3] == calls && calls[2] == CallObserve(Sighting("b", "2"));
    ObservedNew(t2, Sighting("b", "2"));
    t := Run(start, calls);
  }

  /** The stale incident cannot be closed without recording the new generation, and the other incident forbids that. */
  lemma RebaselineRefused(q: Request)
    requires q.projectId == "p" && q.source == CONFIGURED
    ensures Rebaseline(Run(Fresh("p"), Calls()), q) == Err(GenerationChangedWithOpen)
  {
    var t := Observed();
    RunKeeps("p", Calls());
    assert IsStale(t.incidents.rows["a"], CONFIGURED) && IsOpenAt(t.incidents.rows["b"], "s");
    assert Blocked(t, CONFIGURED);
    RebaselineExact(t, q);
  }
}
