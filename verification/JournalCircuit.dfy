/**
 * What the circuit counts. On each stretch of a run, from the start or from an
 * update that clears its list (an operator's reopen) up to the next update that
 * leaves entries (a trip) or to the cap, the circuit's advances are the latest
 * times of the distinct incidents advanced past: one entry an incident, however
 * often it was attempted. The store finds an incident's earlier entry by its
 * time, so this holds exactly as long as no incident's earlier time is also
 * another incident's entry.
 */
module JournalCircuit {
  import opened Wrappers
  import opened JournalSpec
  import opened JournalSafety
  import opened JournalClaims
  import opened JournalHistory

  /** An incident, and when it was last advanced past. */
  datatype Counted = Counted(id: Id, at: Time)

  function Without(w: seq<Counted>, id: Id): seq<Counted> {
    if w == [] then []
    else if w[0].id == id then w[1..]
    else [w[0]] + Without(w[1..], id)
  }

  function Times(w: seq<Counted>): multiset<Time> {
    if w == [] then multiset{} else multiset{w[0].at} + Times(w[1..])
  }

  predicate Counts(w: seq<Counted>, id: Id) {
    exists p <- w :: p.id == id
  }

  predicate Distinct(w: seq<Counted>) {
    forall i, j :: 0 <= i < j < |w| ==> w[i].id != w[j].id
  }

  /** At the cap the list drops an incident, and the stretch is over. */
  function Capped(w: seq<Counted>): Option<seq<Counted>> {
    if |w| <= MAX_CIRCUIT_ADVANCES then Some(w) else None
  }

  /** An update that clears the source's list: a stretch begins. */
  predicate Clears(t: Tables, c: Call, source: Id) {
    c.CallUpdateCircuit? && c.source == source && c.next.advances == [] && Step(t, c).Ok?
  }

  /** What one call does to the incidents advanced past in the current stretch; None outside a stretch. */
  function WindowAfter(t: Tables, c: Call, w: Option<seq<Counted>>, source: Id): Option<seq<Counted>> {
    if Step(t, c).Err? then w
    else
      match c
      case CallPrepareAdvance(a) =>
        if w.Some? && a.failureId in t.incidents.rows && t.incidents.rows[a.failureId].sourceId == source
        then Capped(Without(w.value, a.failureId) + [Counted(a.failureId, a.at)]) else w
      case CallUpdateCircuit(s, _, next) => if s != source then w else if next.advances == [] then Some([]) else None
      case _ => w
  }

  function Window(t: Tables, calls: seq<Call>, source: Id): Option<seq<Counted>> {
    if calls == [] then Some([])
    else WindowAfter(Run(t, calls[..|calls| - 1]), calls[|calls| - 1], Window(t, calls[..|calls| - 1], source), source)
  }

  /** The circuit's list is the window's times: one entry for each distinct incident. */
  predicate Agrees(t: Tables, w: seq<Counted>, source: Id) {
    multiset(CircuitOf(t, source).advances) == Times(w)
  }

  /** The window names distinct incidents of the source, each with the time of its own boundary. */
  predicate Tracked(t: Tables, w: seq<Counted>, source: Id) {
    && Distinct(w)
    && forall p <- w :: p.id in t.incidents.rows && t.incidents.rows[p.id].sourceId == source && EarlierTime(t, t.incidents.rows[p.id]) == Some(p.at)
  }

  /**
   * The incident's earlier time can be told apart: it is in the window itself,
   * has none, or no entry of the list carries it.
   */
  predicate Told(t: Tables, a: Advance, w: seq<Counted>) {
    a.failureId in t.incidents.rows ==>
      var r := t.incidents.rows[a.failureId];
      TimeOf(w, a.failureId).Some? || EarlierTime(t, r).None? || EarlierTime(t, r).value !in CircuitOf(t, r.sourceId).advances
  }

  // ----- sequences --------------------------------------------------------------------

  lemma {:induction false} WithoutFirstIs(xs: seq<Time>, x: Time)
    ensures multiset(WithoutFirst(xs, x)) == multiset(xs) - multiset{x}
    ensures |WithoutFirst(xs, x)| == if x in xs then |xs| - 1 else |xs|
  {
    if xs != [] {
      assert xs == [xs[0]] + xs[1..];
      if xs[0] != x { WithoutFirstIs(xs[1..], x); }
    }
  }

  lemma {:induction false} WithoutIs(w: seq<Counted>, id: Id)
    requires Distinct(w)
    ensures Distinct(Without(w, id))
    ensures forall p :: p in Without(w, id) <==> p in w && p.id != id
  {
    if w != [] {
      var rest := w[1..];
      assert w == [w[0]] + rest;
      if w[0].id == id {
        assert forall q <- rest :: q.id != id;
      } else {
        assert Distinct(rest) by { assert forall i :: 0 <= i < |rest| ==> rest[i] == w[i + 1]; }
        WithoutIs(rest, id);
        var tail := Without(rest, id);
        assert forall q <- tail :: q in rest && q.id != w[0].id;
      }
    }
  }

  /** The time the window holds for an incident. */
  function TimeOf(w: seq<Counted>, id: Id): Option<Time> {
    if w == [] then None else if w[0].id == id then Some(w[0].at) else TimeOf(w[1..], id)
  }

  lemma {:induction false} TimeOfIs(w: seq<Counted>, id: Id)
    ensures match TimeOf(w, id)
            case None => Without(w, id) == w && !Counts(w, id)
            case Some(at) => Counted(id, at) in w && at in Times(w)
  {
    if w != [] {
      assert w == [w[0]] + w[1..];
      if w[0].id != id { TimeOfIs(w[1..], id); }
    }
  }

  lemma {:induction false} WithoutTime(w: seq<Counted>, id: Id)
    ensures TimeOf(w, id).Some? ==> Times(w) == Times(Without(w, id)) + multiset{TimeOf(w, id).value}
  {
    if w != [] && w[0].id != id {
      WithoutTime(w[1..], id);
      assert ([w[0]] + Without(w[1..], id))[1..] == Without(w[1..], id);
    }
  }

  lemma {:induction false} TimesAppend(w: seq<Counted>, p: Counted)
    ensures Times(w + [p]) == Times(w) + multiset{p.at}
  {
    if w == [] {
      assert w + [p] == [p];
    } else {
      TimesAppend(w[1..], p);
      assert (w + [p])[1..] == w[1..] + [p];
    }
  }

  lemma {:induction false} TimesHas(w: seq<Counted>, at: Time)
    ensures |Times(w)| == |w|
    ensures at in Times(w) <==> exists p <- w :: p.at == at
  {
    if w != [] {
      TimesHas(w[1..], at);
      assert w == [w[0]] + w[1..];
    }
  }

  // ----- one advance --------------------------------------------------------------------

  /** The list with the earlier entry taken out, against the window without the incident. */
  lemma KeptIs(advances: seq<Time>, w: seq<Counted>, id: Id, earlier: Option<Time>)
    requires multiset(advances) == Times(w)
    requires TimeOf(w, id).Some? ==> earlier == TimeOf(w, id)
    ensures var kept := if earlier.Some? then WithoutFirst(advances, earlier.value) else advances;
            && (multiset(kept) == Times(Without(w, id)) <==> TimeOf(w, id).Some? || earlier.None? || earlier.value !in advances)
            && |kept| <= |Times(Without(w, id))|
  {
    WithoutTime(w, id);
    TimeOfIs(w, id);
    if earlier.Some? {
      WithoutFirstIs(advances, earlier.value);
      assert earlier.value in advances <==> earlier.value in multiset(advances);
    }
  }

  /** The list after an advance, against the window after it: the two agree exactly when the earlier time is told apart. */
  lemma CountedIs(advances: seq<Time>, w: seq<Counted>, id: Id, earlier: Option<Time>, at: Time)
    requires multiset(advances) == Times(w)
    requires TimeOf(w, id).Some? ==> earlier == TimeOf(w, id)
    requires |Without(w, id)| < MAX_CIRCUIT_ADVANCES
    ensures multiset(CountedAdvance(advances, earlier, at)) == Times(Without(w, id) + [Counted(id, at)])
            <==> TimeOf(w, id).Some? || earlier.None? || earlier.value !in advances
  {
    KeptIs(advances, w, id, earlier);
    TimesHas(Without(w, id), at);
    TimesAppend(Without(w, id), Counted(id, at));
    var kept := if earlier.Some? then WithoutFirst(advances, earlier.value) else advances;
    assert |multiset(kept)| == |kept|;
    assert CountedAdvance(advances, earlier, at) == kept + [at];
    SameWithOneMore(kept, Times(Without(w, id)), at);
  }

  lemma SameWithOneMore(xs: seq<Time>, m: multiset<Time>, at: Time)
    ensures multiset(xs + [at]) == m + multiset{at} <==> multiset(xs) == m
  {
    assert multiset(xs + [at]) == multiset(xs) + multiset{at};
    if multiset(xs) + multiset{at} == m + multiset{at} {
      forall x: Time ensures multiset(xs)[x] == m[x] {
        assert (multiset(xs) + multiset{at})[x] == (m + multiset{at})[x];
      }
    }
  }

  lemma AdvanceCounts(t: Tables, a: Advance, source: Id)
    requires Sound(t) && PrepareAdvance(t, a).Ok? && t.incidents.rows[a.failureId].sourceId == source
    ensures var r := t.incidents.rows[a.failureId];
            CircuitOf(PrepareAdvance(t, a).value, source).advances == CountedAdvance(CircuitOf(t, source).advances, EarlierTime(t, r), a.at)
  {
    var r := t.incidents.rows[a.failureId];
    var v := Installed(t, a);
    assert PrepareAdvance(t, a) == AdvanceCounted(v, r, a.at) by { AdvanceIs(t, a); }
    assert v.circuits == t.circuits by { SupersedingRows(t, r.sourceId, a.at); }
    assert EarlierTime(v, r) == EarlierTime(t, r) by {
      assert Named(t.boundaries.rows, t.incidents.rows);
      AdvanceRows(t, a);
    }
  }

  // ----- steps ------------------------------------------------------------------------------

  /** Incidents keep their source and boundary, and boundaries their time. */
  predicate Persists(t: Tables, u: Tables, except: Option<Id>) {
    && (forall k <- t.incidents.rows :: k in u.incidents.rows && u.incidents.rows[k].sourceId == t.incidents.rows[k].sourceId
                                        && (Some(k) != except ==> u.incidents.rows[k].boundaryId == t.incidents.rows[k].boundaryId))
    && (forall k <- t.boundaries.rows :: k in u.boundaries.rows && u.boundaries.rows[k].createdAt == t.boundaries.rows[k].createdAt
                                        && u.boundaries.rows[k].sourceId == t.boundaries.rows[k].sourceId)
  }

  function Advancing(t: Tables, c: Call): Option<Id> {
    if c.CallPrepareAdvance? && Step(t, c).Ok? then Some(c.advance.failureId) else None
  }

  lemma StepPersists(t: Tables, c: Call)
    requires Sound(t)
    ensures Persists(t, After(t, c), Advancing(t, c))
  {
    if Step(t, c).Ok? {
      match c
      case CallClaim(projectId, sources, now) => ClaimExact(t, projectId, sources, now);
      case CallPrepareAdvance(a) => AdvanceShape(t, a);
      case CallRetireBoundary(id, expected, retirement, at) => RetirePersists(t, id, expected, retirement, at);
      case CallObserve(o) => ObservePersists(t, o);
      case CallUpdate(id, expected, p, e) => UpdatePersists(t, id, expected, p, e);
      case CallUpdateCircuit(_, _, _) =>
    }
  }

  lemma RetirePersists(t: Tables, id: Id, expected: nat, retirement: Retirement, at: Time)
    requires BoundariesKeyed(t.boundaries, t.sources) && RetireBoundary(t, id, expected, retirement, at).Ok?
    ensures Persists(t, RetireBoundary(t, id, expected, retirement, at).value, None)
  {
  }

  lemma ObservePersists(t: Tables, o: Observation)
    requires Observe(t, o).Ok?
    ensures Persists(t, Observe(t, o).value, None)
  {
  }

  lemma UpdatePersists(t: Tables, id: Id, expected: nat, p: Patch, e: Event)
    requires Update(t, id, expected, p, e).Ok?
    ensures Persists(t, Update(t, id, expected, p, e).value, None)
  {
  }

  lemma TrackedStays(t: Tables, u: Tables, w: seq<Counted>, source: Id, except: Option<Id>)
    requires Tracked(t, w, source) && Persists(t, u, except) && Named(t.boundaries.rows, t.incidents.rows)
    requires except.Some? ==> !Counts(w, except.value)
    ensures Tracked(u, w, source)
  {
  }

  lemma TrackedWith(u: Tables, w: seq<Counted>, p: Counted, source: Id)
    requires Tracked(u, w, source) && forall q <- w :: q.id != p.id
    requires p.id in u.incidents.rows && u.incidents.rows[p.id].sourceId == source && EarlierTime(u, u.incidents.rows[p.id]) == Some(p.at)
    ensures Tracked(u, w + [p], source)
  {
  }

  lemma AdvanceTracks(t: Tables, a: Advance, w: seq<Counted>, source: Id)
    requires Sound(t) && PrepareAdvance(t, a).Ok? && Tracked(t, w, source)
    ensures var u := PrepareAdvance(t, a).value;
            Tracked(u, if t.incidents.rows[a.failureId].sourceId == source then Without(w, a.failureId) + [Counted(a.failureId, a.at)] else w, source)
  {
    var u, r := PrepareAdvance(t, a).value, t.incidents.rows[a.failureId];
    var c := CallPrepareAdvance(a);
    assert Step(t, c).Ok?;
    WithoutIs(w, a.failureId);
    var rest := Without(w, a.failureId);
    assert r.sourceId != source ==> rest == w by { TimeOfIs(w, a.failureId); }
    assert Tracked(u, rest, source) by {
      StepPersists(t, c);
      TrackedStays(t, u, rest, source, Some(a.failureId));
    }
    if r.sourceId == source {
      assert a.failureId in u.incidents.rows && u.incidents.rows[a.failureId] == AdvancedIncident(a, r) && EarlierTime(u, u.incidents.rows[a.failureId]) == Some(a.at) by {
        AdvanceShape(t, a);
      }
      TrackedWith(u, rest, Counted(a.failureId, a.at), source);
    }
  }

  lemma StepTracks(t: Tables, c: Call, w: Option<seq<Counted>>, source: Id)
    requires Sound(t) && (w.Some? ==> Tracked(t, w.value, source))
    ensures var v := WindowAfter(t, c, w, source); v.Some? ==> Tracked(After(t, c), v.value, source)
  {
    if w.Some? {
      if c.CallPrepareAdvance? && Step(t, c).Ok? {
        AdvanceTracks(t, c.advance, w.value, source);
      } else {
        StepPersists(t, c);
        TrackedStays(t, After(t, c), w.value, source, None);
      }
    }
  }

  /** An advance of another source's incident leaves the source's circuit alone. */
  lemma AdvanceElsewhere(t: Tables, a: Advance, source: Id)
    requires Sound(t) && PrepareAdvance(t, a).Ok? && t.incidents.rows[a.failureId].sourceId != source
    ensures CircuitOf(PrepareAdvance(t, a).value, source) == CircuitOf(t, source)
  {
    var r := t.incidents.rows[a.failureId];
    assert PrepareAdvance(t, a) == AdvanceCounted(Installed(t, a), r, a.at) by { AdvanceIs(t, a); }
    assert Installed(t, a).circuits == t.circuits by { SupersedingRows(t, r.sourceId, a.at); }
  }

  lemma NoCircuit(t: Tables, c: Call)
    requires c.CallObserve? || c.CallUpdate? || c.CallRetireBoundary?
    ensures After(t, c).circuits == t.circuits
  {
  }

  /** Calls that count nothing for the source leave its circuit alone. */
  lemma CircuitStays(t: Tables, c: Call, source: Id)
    requires Sound(t) && Step(t, c).Ok?
    requires match c
             case CallPrepareAdvance(a) => t.incidents.rows[a.failureId].sourceId != source
             case CallUpdateCircuit(s, _, _) => s != source
             case _ => true
    ensures CircuitOf(After(t, c), source) == CircuitOf(t, source)
  {
    match c
    case CallClaim(projectId, sources, now) => ClaimExact(t, projectId, sources, now);
    case CallPrepareAdvance(a) => AdvanceElsewhere(t, a, source);
    case CallUpdateCircuit(_, _, _) =>
    case _ => NoCircuit(t, c);
  }

  /** Within a stretch, an advance leaves list and window agreeing exactly when it is told apart. */
  lemma AdvanceAgrees(t: Tables, a: Advance, w: seq<Counted>, source: Id)
    requires Sound(t) && Tracked(t, w, source) && Agrees(t, w, source)
    requires PrepareAdvance(t, a).Ok? && t.incidents.rows[a.failureId].sourceId == source && |Without(w, a.failureId)| < MAX_CIRCUIT_ADVANCES
    ensures Agrees(PrepareAdvance(t, a).value, Without(w, a.failureId) + [Counted(a.failureId, a.at)], source) <==> Told(t, a, w)
  {
    var r := t.incidents.rows[a.failureId];
    assert TimeOf(w, a.failureId).Some? ==> EarlierTime(t, r) == TimeOf(w, a.failureId) by { TimeOfIs(w, a.failureId); }
    AdvanceCounts(t, a, source);
    CountedIs(CircuitOf(t, source).advances, w, a.failureId, EarlierTime(t, r), a.at);
  }

  /** The call advances past an incident of the source. */
  predicate AdvancesIn(t: Tables, c: Call, source: Id) {
    c.CallPrepareAdvance? && Step(t, c).Ok? && c.advance.failureId in t.incidents.rows && t.incidents.rows[c.advance.failureId].sourceId == source
  }

  lemma OthersAgree(t: Tables, c: Call, w: seq<Counted>, source: Id)
    requires Sound(t) && Agrees(t, w, source) && !AdvancesIn(t, c, source)
    requires WindowAfter(t, c, Some(w), source).Some? && !Clears(t, c, source)
    ensures WindowAfter(t, c, Some(w), source) == Some(w) && Agrees(After(t, c), w, source)
  {
    if Step(t, c).Ok? {
      assert CircuitOf(After(t, c), source) == CircuitOf(t, source) by { CircuitStays(t, c, source); }
    }
  }

  /** Within a stretch, a call leaves list and window agreeing exactly when its advance is told apart. */
  lemma StepCounts(t: Tables, c: Call, w: seq<Counted>, source: Id)
    requires Sound(t) && Tracked(t, w, source) && Agrees(t, w, source)
    requires WindowAfter(t, c, Some(w), source).Some? && !Clears(t, c, source)
    ensures Agrees(After(t, c), WindowAfter(t, c, Some(w), source).value, source) <==> (AdvancesIn(t, c, source) ==> Told(t, c.advance, w))
  {
    if AdvancesIn(t, c, source) {
      AdvanceAgrees(t, c.advance, w, source);
    } else {
      OthersAgree(t, c, w, source);
    }
  }

  /** A stretch begins with nothing counted, and nothing in the list. */
  lemma ClearAgrees(t: Tables, c: Call, w: Option<seq<Counted>>, source: Id)
    requires Clears(t, c, source)
    ensures WindowAfter(t, c, w, source) == Some([]) && CircuitOf(After(t, c), source).advances == []
    ensures Agrees(After(t, c), [], source)
  {
  }

  // ----- runs -----------------------------------------------------------------------------------

  /** List and window have agreed at every point since the current stretch began. */
  predicate AgreedSince(t: Tables, calls: seq<Call>, source: Id) {
    var w := Window(t, calls, source);
    w.Some? ==>
      && Agrees(Run(t, calls), w.value, source)
      && (calls != [] && !Clears(Run(t, calls[..|calls| - 1]), calls[|calls| - 1], source) ==> AgreedSince(t, calls[..|calls| - 1], source))
  }

  /** Every advance since the current stretch began could be told apart. */
  predicate ToldSince(t: Tables, calls: seq<Call>, source: Id) {
    Window(t, calls, source).Some? && calls != [] ==>
      var before, c := calls[..|calls| - 1], calls[|calls| - 1];
      !Clears(Run(t, before), c, source) ==>
        && ToldSince(t, before, source)
        && (Window(t, before, source).Some? && AdvancesIn(Run(t, before), c, source) ==> Told(Run(t, before), c.advance, Window(t, before, source).value))
  }

  /** A stretch goes on only from a stretch. */
  lemma StretchGoesOn(t: Tables, c: Call, w: Option<seq<Counted>>, source: Id)
    requires WindowAfter(t, c, w, source).Some? && !Clears(t, c, source)
    ensures w.Some?
  {
  }

  lemma {:induction false} RunTracks(projectId: Id, calls: seq<Call>, source: Id)
    ensures var w := Window(Fresh(projectId), calls, source); w.Some? ==> Tracked(Run(Fresh(projectId), calls), w.value, source)
  {
    if calls != [] {
      var before := calls[..|calls| - 1];
      RunTracks(projectId, before, source);
      RunKeeps(projectId, before);
      StepTracks(Run(Fresh(projectId), before), calls[|calls| - 1], Window(Fresh(projectId), before, source), source);
    }
  }

  /**
   * At every point of every run, the circuit has counted each distinct incident once since the stretch
   * began exactly when every advance's earlier time could be told apart since then.
   */
  lemma {:induction false} RunCounts(projectId: Id, calls: seq<Call>, source: Id)
    ensures AgreedSince(Fresh(projectId), calls, source) <==> ToldSince(Fresh(projectId), calls, source)
  {
    var t := Fresh(projectId);
    if calls != [] && Window(t, calls, source).Some? {
      var before, c := calls[..|calls| - 1], calls[|calls| - 1];
      var u, w := Run(t, before), Window(t, before, source);
      if Clears(u, c, source) {
        ClearAgrees(u, c, w, source);
      } else {
        StretchGoesOn(u, c, w, source);
        RunCounts(projectId, before, source);
        if AgreedSince(t, before, source) {
          RunTracks(projectId, before, source);
          RunKeeps(projectId, before);
          StepCounts(u, c, w.value, source);
        }
      }
    }
  }

  /** The source's boundaries were all created at different times. */
  predicate DistinctTimes(t: Tables, source: Id) {
    forall j <- t.boundaries.rows, k <- t.boundaries.rows ::
      t.boundaries.rows[j].sourceId == source == t.boundaries.rows[k].sourceId && t.boundaries.rows[j].createdAt == t.boundaries.rows[k].createdAt ==> j == k
  }

  lemma DistinctBoundaries(t: Tables, p: Incident, r: Incident, source: Id)
    requires Named(t.boundaries.rows, t.incidents.rows) && DistinctTimes(t, source)
    requires p.failureId in t.incidents.rows && t.incidents.rows[p.failureId] == p && p.sourceId == source
    requires r.failureId in t.incidents.rows && t.incidents.rows[r.failureId] == r && r.sourceId == source
    requires EarlierTime(t, p).Some? && EarlierTime(t, p) == EarlierTime(t, r)
    ensures p.failureId == r.failureId
  {
  }

  /** Different times are enough to tell every advance apart. */
  lemma DistinctTimesTell(t: Tables, a: Advance, w: seq<Counted>, source: Id)
    requires Sound(t) && DistinctTimes(t, source) && Tracked(t, w, source) && Agrees(t, w, source)
    requires a.failureId in t.incidents.rows && t.incidents.rows[a.failureId].sourceId == source
    ensures Told(t, a, w)
  {
    var r := t.incidents.rows[a.failureId];
    var earlier := EarlierTime(t, r);
    TimeOfIs(w, a.failureId);
    if earlier.Some? && earlier.value in CircuitOf(t, source).advances {
      assert earlier.value in Times(w);
      TimesHas(w, earlier.value);
      var p :| p in w && p.at == earlier.value;
      assert Named(t.boundaries.rows, t.incidents.rows);
      DistinctBoundaries(t, t.incidents.rows[p.id], r, source);
    }
  }

  /** The circuit's list has as many entries as there are distinct incidents in the window. */
  lemma AgreeingLength(t: Tables, w: seq<Counted>, source: Id)
    requires Agrees(t, w, source)
    ensures |CircuitOf(t, source).advances| == |w|
  {
    TimesHas(w, 0);
    assert |multiset(CircuitOf(t, source).advances)| == |CircuitOf(t, source).advances|;
  }

  /** In any run whose boundaries are created at different times, the circuit's entries in a stretch are its distinct incidents, one each. */
  lemma {:induction false} RunCountsIncidents(projectId: Id, calls: seq<Call>, source: Id)
    requires DistinctTimes(Run(Fresh(projectId), calls), source)
    ensures var w := Window(Fresh(projectId), calls, source);
            w.Some? ==> Agrees(Run(Fresh(projectId), calls), w.value, source) && |CircuitOf(Run(Fresh(projectId), calls), source).advances| == |w.value|
  {
    var t, v := Fresh(projectId), Window(Fresh(projectId), calls, source);
    if calls != [] && v.Some? {
      var before, c := calls[..|calls| - 1], calls[|calls| - 1];
      var u, w := Run(t, before), Window(t, before, source);
      if Clears(u, c, source) {
        ClearAgrees(u, c, w, source);
      } else {
        StretchGoesOn(u, c, w, source);
        assert Sound(u) && DistinctTimes(u, source) by { RunKeeps(projectId, before); StepPersists(u, c); }
        RunCountsIncidents(projectId, before, source);
        RunTracks(projectId, before, source);
        if AdvancesIn(u, c, source) {
          DistinctTimesTell(u, c.advance, w.value, source);
        }
        StepCounts(u, c, w.value, source);
      }
    }
    if v.Some? { AgreeingLength(Run(t, calls), v.value, source); }
  }
}
