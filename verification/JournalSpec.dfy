/**
 * The failure journal as a value: its tables, the statements a store call runs
 * on them, and what each call does when every statement succeeds.
 *
 * A table with a unique key is a map of rows with the keys in insertion order
 * (the `seq` column). Times are only compared for equality, so they are numbers.
 */
module JournalSpec {
  import opened Wrappers

  type Id = string
  type Time = nat

  datatype Table<R> = Table(rows: map<Id, R>, order: seq<Id>) {
    predicate Valid() {
      && (forall k <- order :: k in rows)
      && (forall k <- rows :: k in order)
      && (forall i, j :: 0 <= i < j < |order| ==> order[i] != order[j])
    }

    function Get(id: Id): Option<R> {
      if id in rows then Some(rows[id]) else None
    }

    function Insert(id: Id, row: R): Table<R> {
      Table(rows[id := row], order + [id])
    }

    /** UPDATE ... WHERE key = id: nothing happens when there is no such row. */
    function Update(id: Id, row: R): Table<R> {
      if id in rows then Table(rows[id := row], order) else this
    }
  }

  datatype Kind = Kafka | Fixture
  datatype Source = Source(sourceId: Id, generation: string, kind: Kind)

  datatype IncidentState = Open | Resolved
  datatype Progress = Held | Retrying | AdvancePending | Advanced | Processed | Uncertain
  datatype Recovery = NotApplicable | GuardPending | RecoveryHeld | BoundaryInForce | Denied
  datatype Policy = Hold | Quarantine | QuarantineResync

  datatype Diagnosis = Diagnosis(failureClass: string, stage: string, errorCode: string, channel: Option<string>, text: string)
  datatype Guard = Guard(decision: string, reason: Option<string>, evidenceRef: Option<string>, at: Time)

  datatype Incident = Incident(
    failureId: Id, revision: nat, sourceId: Id, generation: string,
    evidenceHash: string, diagnosis: Diagnosis, policy: Policy,
    firstObservedAt: Time, lastObservedAt: Time, observations: nat,
    progress: Progress, recovery: Recovery, state: IncidentState, resolution: Option<string>,
    guard: Option<Guard>, boundaryId: Option<Id>, updatedAt: Time)

  datatype RetirementMode = ByGeneration | ByApplication | ByOperator | BySuperseded
  datatype Retirement = Retirement(mode: RetirementMode, reason: Option<string>, operationId: Option<Id>)
  datatype BoundaryState = InForce | Superseded | Retired

  datatype Boundary = Boundary(
    boundaryId: Id, sourceId: Id, generation: string, context: string, revision: nat, state: BoundaryState,
    failureIds: seq<Id>, supersedes: Option<Id>, createdAt: Time, retiredAt: Option<Time>, retirement: Option<Retirement>)

  datatype CircuitMode = CircuitClosed | CircuitOpen
  datatype Circuit = Circuit(mode: CircuitMode, advances: seq<Time>, openedAt: Option<Time>, reason: Option<string>, revision: nat)

  datatype Event = Event(failureId: Id, at: Time, name: string, detail: string, operationId: Option<Id>)

  datatype Tables = Tables(
    projectId: Id, sources: Table<Source>, incidents: Table<Incident>, boundaries: Table<Boundary>,
    circuits: map<Id, Circuit>, events: seq<Event>)

  datatype Refusal =
    | JournalFull | JournalClosed | UniqueIndex
    | DuplicateSource | ProjectMismatch | SourceRemovedWithOpen | GenerationChangedWithOpen | SourceNotClaimed
    | UnknownIncident | UnknownBoundary | StaleRevision
    | IncidentResolved | GenerationChanged | BoundaryExists
    | BoundaryIdMissing | ContextNotJson | ContextTooLarge | GuardTextTooLong
    | SupersedeRefused | NotInForce | IncidentHeld | AdvanceUnresolved

  const MAX_EVENTS_PER_INCIDENT := 200
  const MAX_CIRCUIT_ADVANCES := 20
  const MAX_RECOVERY_CONTEXT_BYTES := 16384
  const MAX_GUARD_TEXT := 512

  // ----- queries ---------------------------------------------------------------

  predicate IsOpenAt(r: Incident, source: Id) {
    r.state == Open && r.sourceId == source
  }

  /** The source's open incidents, oldest first. */
  function OpenOf(t: Table<Incident>, keys: seq<Id>, source: Id): seq<Incident> {
    if keys == [] then []
    else if keys[0] in t.rows && IsOpenAt(t.rows[keys[0]], source) then [t.rows[keys[0]]] + OpenOf(t, keys[1..], source)
    else OpenOf(t, keys[1..], source)
  }

  function OpenIncidents(t: Tables, source: Id): seq<Incident> {
    OpenOf(t.incidents, t.incidents.order, source)
  }

  predicate InForceAt(b: Boundary, source: Id) {
    b.state == InForce && b.sourceId == source
  }

  function FirstInForce(t: Table<Boundary>, keys: seq<Id>, source: Id): Option<Boundary> {
    if keys == [] then None
    else if keys[0] in t.rows && InForceAt(t.rows[keys[0]], source) then Some(t.rows[keys[0]])
    else FirstInForce(t, keys[1..], source)
  }

  /** The row the query for the source's boundary in force returns. */
  function BoundaryOf(t: Tables, source: Id): Option<Boundary> {
    FirstInForce(t.boundaries, t.boundaries.order, source)
  }

  function CircuitOf(t: Tables, source: Id): Circuit {
    if source in t.circuits then t.circuits[source] else Circuit(CircuitClosed, [], None, None, 0)
  }

  // ----- events ----------------------------------------------------------------

  /** One incident's events, oldest first. */
  function History(events: seq<Event>, id: Id): seq<Event> {
    if events == [] then []
    else if events[0].failureId == id then [events[0]] + History(events[1..], id)
    else History(events[1..], id)
  }

  function DropOldest(events: seq<Event>, id: Id, n: nat): seq<Event> {
    if n == 0 || events == [] then events
    else if events[0].failureId == id then DropOldest(events[1..], id, n - 1)
    else [events[0]] + DropOldest(events[1..], id, n)
  }

  /** Appends the event and deletes what lies past the incident's newest 200. */
  function WithEvent(t: Tables, e: Event): Tables {
    var all := t.events + [e];
    var n := |History(all, e.failureId)|;
    t.(events := DropOldest(all, e.failureId, if n > MAX_EVENTS_PER_INCIDENT then n - MAX_EVENTS_PER_INCIDENT else 0))
  }

  // ----- boundaries --------------------------------------------------------------

  function EndBoundary(b: Boundary, retirement: Retirement, at: Time): Boundary {
    b.(state := if retirement.mode == BySuperseded then Superseded else Retired,
       failureIds := if retirement.mode == BySuperseded then [] else b.failureIds,
       revision := b.revision + 1, retiredAt := Some(at), retirement := Some(retirement))
  }

  function SaveBoundary(t: Tables, b: Boundary): Tables {
    t.(boundaries := t.boundaries.Update(b.boundaryId, b))
  }

  /** INSERT under the table's two unique indexes: the boundary ID, and one boundary in force per source. */
  function InsertBoundary(t: Tables, b: Boundary): Result<Tables, Refusal> {
    if b.boundaryId in t.boundaries.rows then Err(UniqueIndex)
    else if b.state == InForce && BoundaryOf(t, b.sourceId).Some? then Err(UniqueIndex)
    else Ok(t.(boundaries := t.boundaries.Insert(b.boundaryId, b)))
  }

  // ----- claim -------------------------------------------------------------------

  predicate Duplicates(sources: seq<Source>) {
    exists i, j :: 0 <= i < j < |sources| && sources[i].sourceId == sources[j].sourceId
  }

  predicate Configured(sources: seq<Source>, id: Id) {
    exists s <- sources :: s.sourceId == id
  }

  predicate RemovedWithOpen(t: Tables, sources: seq<Source>) {
    exists id <- t.sources.order :: !Configured(sources, id) && OpenIncidents(t, id) != []
  }

  function GenerationRetirement(source: Id, from: string, to: string): Retirement {
    Retirement(ByGeneration, Some("Source " + source + " changed from generation " + from + " to " + to + "."), None)
  }

  /** Records a source's new generation and kind, and retires the boundary of another generation. */
  function Reidentified(t: Tables, s: Source, now: Time): Tables {
    var recorded := t.(sources := t.sources.Update(s.sourceId, s));
    match BoundaryOf(recorded, s.sourceId)
    case None => recorded
    case Some(b) =>
      if b.generation == s.generation then recorded
      else SaveBoundary(recorded, EndBoundary(b, GenerationRetirement(s.sourceId, b.generation, s.generation), now))
  }

  /** One configured source against the sources stored when the call began. */
  function ClaimOne(stored: Table<Source>, t: Tables, s: Source, now: Time): Result<Tables, Refusal> {
    if s.sourceId !in stored.rows then
      if s.sourceId in t.sources.rows then Err(UniqueIndex)
      else Ok(t.(sources := t.sources.Insert(s.sourceId, s)))
    else if stored.rows[s.sourceId] == s then Ok(t)
    else if OpenIncidents(t, s.sourceId) != [] then Err(GenerationChangedWithOpen)
    else Ok(Reidentified(t, s, now))
  }

  function ClaimAll(stored: Table<Source>, t: Tables, sources: seq<Source>, now: Time): Result<Tables, Refusal>
    decreases |sources|
  {
    if sources == [] then Ok(t)
    else
      match ClaimAll(stored, t, sources[..|sources| - 1], now)
      case Err(e) => Err(e)
      case Ok(u) => ClaimOne(stored, u, sources[|sources| - 1], now)
  }

  function Claim(t: Tables, projectId: Id, sources: seq<Source>, now: Time): Result<Tables, Refusal> {
    if Duplicates(sources) then Err(DuplicateSource)
    else if t.projectId != projectId then Err(ProjectMismatch)
    else if RemovedWithOpen(t, sources) then Err(SourceRemovedWithOpen)
    else ClaimAll(t.sources, t, sources, now)
  }

  // ----- observe and update --------------------------------------------------------

  datatype Observation = Observation(
    failureId: Id, sourceId: Id, generation: string, evidenceHash: string, diagnosis: Diagnosis, policy: Policy, observedAt: Time)

  function NewIncident(o: Observation): Incident {
    Incident(o.failureId, 1, o.sourceId, o.generation, o.evidenceHash, o.diagnosis, o.policy,
             o.observedAt, o.observedAt, 1, Held, NotApplicable, Open, None, None, None, o.observedAt)
  }

  /** Both sides hold evidence, and it is not the same. */
  predicate Conflicts(r: Incident, o: Observation) {
    r.evidenceHash != "" && o.evidenceHash != "" && r.evidenceHash != o.evidenceHash
  }

  function Reopened(r: Incident): Incident {
    if r.state == Resolved then r.(state := Open, resolution := None, progress := Held) else r
  }

  /** A denied recovery becomes held under a policy without a guard. */
  function WithPolicy(r: Incident, policy: Policy): Incident {
    if r.policy == policy then r
    else if policy != QuarantineResync && r.recovery == Denied then r.(policy := policy, recovery := RecoveryHeld)
    else r.(policy := policy)
  }

  function Observed(r: Incident, o: Observation): Incident {
    var counted := Reopened(r.(revision := r.revision + 1, lastObservedAt := o.observedAt,
                               observations := r.observations + 1, updatedAt := o.observedAt));
    if Conflicts(r, o) then counted else WithPolicy(counted, o.policy).(diagnosis := o.diagnosis)
  }

  function ObservedEvent(r: Option<Incident>, o: Observation): Event {
    Event(o.failureId, o.observedAt, "detected",
          if r.Some? && Conflicts(r.value, o) then "evidence-conflict" else o.diagnosis.failureClass, None)
  }

  function Observe(t: Tables, o: Observation): Result<Tables, Refusal> {
    match t.incidents.Get(o.failureId)
    case Some(r) => Ok(WithEvent(t.(incidents := t.incidents.Update(o.failureId, Observed(r, o))), ObservedEvent(Some(r), o)))
    case None =>
      if o.sourceId !in t.sources.rows then Err(SourceNotClaimed)
      else Ok(WithEvent(t.(incidents := t.incidents.Insert(o.failureId, NewIncident(o))), ObservedEvent(None, o)))
  }

  /** The fields a transition may change; None leaves a field alone. */
  datatype Patch = Patch(
    progress: Option<Progress>, recovery: Option<Recovery>, state: Option<IncidentState>, resolution: Option<Option<string>>,
    evidenceHash: Option<string>, diagnosis: Option<string>, guard: Option<Option<Guard>>)

  function Or<T>(change: Option<T>, present: T): T {
    if change.Some? then change.value else present
  }

  function Patched(r: Incident, p: Patch, at: Time): Incident {
    r.(progress := Or(p.progress, r.progress), recovery := Or(p.recovery, r.recovery), state := Or(p.state, r.state),
       resolution := Or(p.resolution, r.resolution), evidenceHash := Or(p.evidenceHash, r.evidenceHash),
       diagnosis := r.diagnosis.(text := Or(p.diagnosis, r.diagnosis.text)), guard := Or(p.guard, r.guard), revision := r.revision + 1, updatedAt := at)
  }

  function Update(t: Tables, id: Id, expectedRevision: nat, p: Patch, e: Event): Result<Tables, Refusal> {
    match t.incidents.Get(id)
    case None => Err(UnknownIncident)
    case Some(r) =>
      if r.revision != expectedRevision then Err(StaleRevision)
      else Ok(WithEvent(t.(incidents := t.incidents.Update(id, Patched(r, p, e.at))), e.(failureId := id)))
  }

  // ----- prepareAdvance ---------------------------------------------------------------

  /** context is the canonical text of the guard's context, or None when it is not JSON data. */
  datatype Advance = Advance(
    failureId: Id, expectedRevision: nat, boundaryId: Id, context: Option<string>, expectedPrior: Option<Id>, guard: Guard, at: Time)

  predicate TextTooLong(text: Option<string>) {
    text.Some? && |text.value| > MAX_GUARD_TEXT
  }

  function AdvanceInputRefusal(a: Advance): Option<Refusal> {
    if a.boundaryId == "" then Some(BoundaryIdMissing)
    else if a.context.None? then Some(ContextNotJson)
    else if |a.context.value| > MAX_RECOVERY_CONTEXT_BYTES then Some(ContextTooLarge)
    else if TextTooLong(a.guard.reason) || TextTooLong(a.guard.evidenceRef) then Some(GuardTextTooLong)
    else None
  }

  function IdOf(b: Option<Boundary>): Option<Id> {
    if b.Some? then Some(b.value.boundaryId) else None
  }

  function AdvanceStateRefusal(t: Tables, a: Advance): Option<Refusal> {
    if a.failureId !in t.incidents.rows then Some(UnknownIncident)
    else
      var r := t.incidents.rows[a.failureId];
      if r.revision != a.expectedRevision then Some(StaleRevision)
      else if r.state != Open then Some(IncidentResolved)
      else if r.sourceId in t.sources.rows && r.generation != t.sources.rows[r.sourceId].generation then Some(GenerationChanged)
      else if IdOf(BoundaryOf(t, r.sourceId)) != a.expectedPrior then Some(StaleRevision)
      else if a.boundaryId in t.boundaries.rows then Some(BoundaryExists)
      else None
  }

  function Carried(prior: Option<Boundary>, id: Id): seq<Id> {
    var before := if prior.Some? then prior.value.failureIds else [];
    if id in before then before else before + [id]
  }

  function NextBoundary(a: Advance, r: Incident, prior: Option<Boundary>): Boundary
    requires a.context.Some?
  {
    Boundary(a.boundaryId, r.sourceId, r.generation, a.context.value, 1, InForce, Carried(prior, r.failureId),
             IdOf(prior), a.at, None, None)
  }

  function AdvancedIncident(a: Advance, r: Incident): Incident {
    r.(progress := AdvancePending, recovery := BoundaryInForce, guard := Some(a.guard), boundaryId := Some(a.boundaryId),
       revision := r.revision + 1, updatedAt := a.at)
  }

  function Superseding(t: Tables, prior: Option<Boundary>, at: Time): Tables {
    if prior.None? then t else SaveBoundary(t, EndBoundary(prior.value, Retirement(BySuperseded, None, None), at))
  }

  function CapAdvances(advances: seq<Time>): seq<Time> {
    if |advances| > MAX_CIRCUIT_ADVANCES then advances[|advances| - MAX_CIRCUIT_ADVANCES..] else advances
  }

  /** The list without its first entry equal to `at`, if it has one. */
  function WithoutFirst(advances: seq<Time>, at: Time): seq<Time> {
    if advances == [] then []
    else if advances[0] == at then advances[1..]
    else [advances[0]] + WithoutFirst(advances[1..], at)
  }

  /** The time of the boundary an incident's earlier advance installed. */
  function EarlierTime(t: Tables, r: Incident): Option<Time> {
    if r.boundaryId.Some? && r.boundaryId.value in t.boundaries.rows then Some(t.boundaries.rows[r.boundaryId.value].createdAt) else None
  }

  function CountedAdvance(advances: seq<Time>, earlier: Option<Time>, at: Time): seq<Time> {
    CapAdvances((if earlier.Some? then WithoutFirst(advances, earlier.value) else advances) + [at])
  }

  function SaveCircuit(t: Tables, source: Id, c: Circuit): Result<Tables, Refusal> {
    if source !in t.sources.rows then Err(SourceNotClaimed) else Ok(t.(circuits := t.circuits[source := c]))
  }

  function AdvanceCounted(t: Tables, r: Incident, at: Time): Result<Tables, Refusal> {
    var c := CircuitOf(t, r.sourceId);
    SaveCircuit(t, r.sourceId, c.(advances := CountedAdvance(c.advances, EarlierTime(t, r), at), revision := c.revision + 1))
  }

  function AdvanceEvent(a: Advance): Event {
    Event(a.failureId, a.at, "advance-pending", a.boundaryId, None)
  }

  /** The incident moved to advance-pending, with its event. */
  function IncidentAdvanced(t: Tables, a: Advance, r: Incident): Tables {
    WithEvent(t.(incidents := t.incidents.Update(a.failureId, AdvancedIncident(a, r))), AdvanceEvent(a))
  }

  function PrepareAdvance(t: Tables, a: Advance): Result<Tables, Refusal> {
    if AdvanceInputRefusal(a).Some? then Err(AdvanceInputRefusal(a).value)
    else if AdvanceStateRefusal(t, a).Some? then Err(AdvanceStateRefusal(t, a).value)
    else
      var r := t.incidents.rows[a.failureId];
      var prior := BoundaryOf(t, r.sourceId);
      match InsertBoundary(Superseding(t, prior, a.at), NextBoundary(a, r, prior))
      case Err(e) => Err(e)
      case Ok(u) => AdvanceCounted(IncidentAdvanced(u, a, r), r, a.at)
  }

  // ----- retireBoundary and updateCircuit ------------------------------------------------

  /** Why an incident still keeps a boundary that lists it in force. */
  function Blocking(incidents: map<Id, Incident>, id: Id): Option<Refusal> {
    if id !in incidents || incidents[id].state != Open then None
    else if incidents[id].progress == Held || incidents[id].progress == Retrying then Some(IncidentHeld)
    else if incidents[id].progress == AdvancePending || incidents[id].progress == Uncertain then Some(AdvanceUnresolved)
    else None
  }

  function FirstBlocking(incidents: map<Id, Incident>, ids: seq<Id>): Option<Refusal> {
    if ids == [] then None
    else if Blocking(incidents, ids[0]).Some? then Blocking(incidents, ids[0])
    else FirstBlocking(incidents, ids[1..])
  }

  function RetirementRefusal(t: Tables, id: Id, expectedRevision: nat, mode: RetirementMode): Option<Refusal> {
    if id !in t.boundaries.rows then Some(UnknownBoundary)
    else if t.boundaries.rows[id].revision != expectedRevision then Some(StaleRevision)
    else if mode == BySuperseded then Some(SupersedeRefused)
    else if t.boundaries.rows[id].state != InForce then Some(NotInForce)
    else FirstBlocking(t.incidents.rows, t.boundaries.rows[id].failureIds)
  }

  function RetireBoundary(t: Tables, id: Id, expectedRevision: nat, retirement: Retirement, at: Time): Result<Tables, Refusal> {
    if RetirementRefusal(t, id, expectedRevision, retirement.mode).Some?
    then Err(RetirementRefusal(t, id, expectedRevision, retirement.mode).value)
    else Ok(SaveBoundary(t, EndBoundary(t.boundaries.rows[id], retirement, at)))
  }

  function UpdateCircuit(t: Tables, source: Id, expectedRevision: nat, next: Circuit): Result<Tables, Refusal> {
    if CircuitOf(t, source).revision != expectedRevision then Err(StaleRevision)
    else SaveCircuit(t, source, next.(advances := CapAdvances(next.advances), revision := expectedRevision + 1))
  }

  // ----- runs ------------------------------------------------------------------------------

  datatype Call =
    | CallClaim(projectId: Id, sources: seq<Source>, now: Time)
    | CallObserve(observation: Observation)
    | CallUpdate(failureId: Id, expected: nat, patch: Patch, event: Event)
    | CallPrepareAdvance(advance: Advance)
    | CallRetireBoundary(boundaryId: Id, expected: nat, retirement: Retirement, at: Time)
    | CallUpdateCircuit(source: Id, expected: nat, next: Circuit)

  function Step(t: Tables, c: Call): Result<Tables, Refusal> {
    match c
    case CallClaim(projectId, sources, now) => Claim(t, projectId, sources, now)
    case CallObserve(o) => Observe(t, o)
    case CallUpdate(id, expected, p, e) => Update(t, id, expected, p, e)
    case CallPrepareAdvance(a) => PrepareAdvance(t, a)
    case CallRetireBoundary(id, expected, retirement, at) => RetireBoundary(t, id, expected, retirement, at)
    case CallUpdateCircuit(source, expected, next) => UpdateCircuit(t, source, expected, next)
  }

  /** A refused call leaves the journal as it was. */
  function After(t: Tables, c: Call): Tables {
    match Step(t, c)
    case Ok(u) => u
    case Err(_) => t
  }

  function Run(t: Tables, calls: seq<Call>): Tables {
    if calls == [] then t else After(Run(t, calls[..|calls| - 1]), calls[|calls| - 1])
  }

  /** The journal that initialisation leaves: claimed sources at most, and nothing else. */
  function Fresh(projectId: Id): Tables {
    Tables(projectId, Table(map[], []), Table(map[], []), Table(map[], []), map[], [])
  }
}
