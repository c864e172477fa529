/**
 * Which state a snapshot serves: over every run, that of one event the map handler was given, the
 * newest for its order; and, when no one else writes to the timeline, one the store itself held.
 */
module SnapshotStates {
  import opened Wrappers
  import opened OrderDomain
  import opened FixtureApp
  import opened RecoveryProtocol

  // --- what was mapped ------------------------------------------------------------------------

  /** One call of the map handler: the event, and the row published at its position. */
  datatype Mapping = Mapping(event: OrderEvent, row: Option<OutboxEntry>)

  function MappedAt(app: AppData, index: nat): seq<Mapping>
    requires index < |app.timeline|
  {
    match app.timeline[index].event
    case None => []
    case Some(event) => [Mapping(event, if index in app.published then Some(app.published[index]) else None)]
  }

  function MappedBy(w: World, e: Event): seq<Mapping> {
    if w.cursor >= |w.app.timeline| then []
    else
      match e
      case Deliver => if Deliverable(w.app, w.cursor) then MappedAt(w.app, w.cursor) else []
      case Skip(mapped, _) => if mapped then MappedAt(w.app, w.cursor) else []
      case _ => []
  }

  /** Every call of the map handler in a run, in order. */
  function MappedIn(w: World, events: seq<Event>): seq<Mapping>
    decreases |events|
  {
    if events == [] then [] else MappedBy(w, events[0]) + MappedIn(Next(w, events[0]), events[1..])
  }

  /** The mapping is of this order, and its state is one the application takes. */
  predicate Concerns(m: Mapping, key: OrderKey) {
    m.event.tenantId == key.tenantId && m.event.order.orderId == key.orderId && IsOrderState(m.event.order)
  }

  /** The mapping is of the very event its row publishes. */
  predicate Confirms(m: Mapping) {
    && m.row.Some? && IsOrderState(m.event.order)
    && m.row.value.tenantId == m.event.tenantId && m.row.value.orderId == m.event.order.orderId && m.row.value.revision == m.event.revision
  }

  /** The order is the initial one, or has the revision and the state of one mapped event together; no mapped event of it is newer. */
  ghost predicate TakenFrom(initial: StoredOrder, mapped: seq<Mapping>, key: OrderKey, order: StoredOrder) {
    && (order == initial
        || exists m <- mapped :: Concerns(m, key) && order == initial.(revision := m.event.revision, state := m.event.order))
    && order.revision >= initial.revision
    && forall m <- mapped :: Concerns(m, key) ==> m.event.revision <= order.revision
  }

  /** The read watermark is the highest row whose own event was mapped, 0 for none. */
  ghost predicate WatermarkFrom(mapped: seq<Mapping>, watermark: nat) {
    && (watermark == 0 || exists m <- mapped :: Confirms(m) && m.row.value.seqNo == watermark)
    && forall m <- mapped :: Confirms(m) ==> m.row.value.seqNo <= watermark
  }

  ghost predicate ReadFrom(initial: map<OrderKey, StoredOrder>, mapped: seq<Mapping>, read: ReadData) {
    && read.orders.Keys == initial.Keys
    && (forall key <- initial :: TakenFrom(initial[key], mapped, key, read.orders[key]))
    && WatermarkFrom(mapped, read.watermark)
  }

  lemma TakenOn(initial: StoredOrder, mapped: seq<Mapping>, key: OrderKey, order: StoredOrder, m: Mapping)
    requires TakenFrom(initial, mapped, key, order)
    requires initial.state.orderId == key.orderId
    ensures TakenFrom(initial, mapped + [m], key,
                      if Concerns(m, key) && m.event.revision > order.revision then order.(revision := m.event.revision, state := m.event.order) else order)
  {
    var all := mapped + [m];
    assert m in all && forall n <- mapped :: n in all;
    if Concerns(m, key) && m.event.revision > order.revision {
      assert order.(revision := m.event.revision, state := m.event.order) == initial.(revision := m.event.revision, state := m.event.order);
    }
  }

  lemma WatermarkOn(mapped: seq<Mapping>, watermark: nat, m: Mapping)
    requires WatermarkFrom(mapped, watermark)
    ensures WatermarkFrom(mapped + [m], if Confirms(m) && m.row.value.seqNo > watermark then m.row.value.seqNo else watermark)
  {
    assert m in mapped + [m] && forall n <- mapped :: n in mapped + [m];
  }

  /** One call of the map handler. */
  lemma AppliedOn(initial: map<OrderKey, StoredOrder>, mapped: seq<Mapping>, read: ReadData, m: Mapping)
    requires Filed(initial) && ReadFrom(initial, mapped, read)
    ensures ReadFrom(initial, mapped + [m], read.Applied(m.event, m.row))
  {
    var after := read.Applied(m.event, m.row);
    forall key <- initial ensures TakenFrom(initial[key], mapped + [m], key, after.orders[key]) {
      TakenOn(initial[key], mapped, key, read.orders[key], m);
      assert KeyOf(initial[key]) == key;
    }
    WatermarkOn(mapped, read.watermark, m);
  }

  lemma StepReads(initial: map<OrderKey, StoredOrder>, mapped: seq<Mapping>, w: World, e: Event)
    requires Filed(initial) && ReadFrom(initial, mapped, w.app.readModel)
    ensures ReadFrom(initial, mapped + MappedBy(w, e), Next(w, e).app.readModel)
  {
    assert mapped + [] == mapped;
    if MappedBy(w, e) != [] {
      var m := MappedAt(w.app, w.cursor)[0];
      AppliedOn(initial, mapped, w.app.readModel, m);
      assert Next(w, e).app.readModel == w.app.readModel.Applied(m.event, m.row);
    } else {
      assert Next(w, e).app.readModel == w.app.readModel by { NothingMapped(w, e); }
    }
  }

  lemma NothingMapped(w: World, e: Event)
    requires MappedBy(w, e) == []
    ensures Next(w, e).app.readModel == w.app.readModel
  {
  }

  lemma {:induction false} RunReads(initial: map<OrderKey, StoredOrder>, mapped: seq<Mapping>, w: World, events: seq<Event>)
    requires Filed(initial) && ReadFrom(initial, mapped, w.app.readModel)
    ensures ReadFrom(initial, mapped + MappedIn(w, events), Run(w, events).app.readModel)
    decreases |events|
  {
    if events == [] {
      assert mapped + [] == mapped;
    } else {
      StepReads(initial, mapped, w, events[0]);
      RunReads(initial, mapped + MappedBy(w, events[0]), Next(w, events[0]), events[1..]);
      assert mapped + MappedBy(w, events[0]) + MappedIn(Next(w, events[0]), events[1..]) == mapped + MappedIn(w, events);
    }
  }

  /** After any run, the read model holds, for each order, the newest state mapped for it, with that state's own revision. */
  lemma ReadModelFromEvents(orders: map<OrderKey, StoredOrder>, events: seq<Event>)
    requires Filed(orders)
    ensures ReadFrom(orders, MappedIn(Initial(orders), events), Run(Initial(orders), events).app.readModel)
  {
    assert ReadFrom(orders, [], Initial(orders).app.readModel);
    RunReads(orders, [], Initial(orders), events);
    assert [] + MappedIn(Initial(orders), events) == MappedIn(Initial(orders), events);
  }

  /** The revision and the state were together in the initial order, or in one event mapped for it. */
  ghost predicate Together(initial: StoredOrder, mapped: seq<Mapping>, key: OrderKey, revision: nat, state: OrderState) {
    || (revision == initial.revision && state == initial.state)
    || exists m <- mapped :: Concerns(m, key) && m.event.revision == revision && m.event.order == state
  }

  /**
   * What a snapshot returns: the state that came with the revision it returns, and nothing mapped for the order
   * is newer. When the boundary it acknowledges is in force as it returns, that revision covers
   * every row of the order up to the watermark it read at.
   */
  lemma SnapshotServes(orders: map<OrderKey, StoredOrder>, before: seq<Event>, during: seq<Event>, key: OrderKey)
    requires Filed(orders)
    ensures var asked := Run(Initial(orders), before);
      var returned := Run(asked, during);
      var mapped := MappedIn(Initial(orders), before);
      match SnapshotOf(asked.app, key, asked.boundary)
      case None => key !in orders
      case Some(s) =>
        && key in orders && Together(orders[key], mapped, key, s.revision, s.state)
        && (forall m <- mapped :: Concerns(m, key) ==> m.event.revision <= s.revision)
        && ((returned.boundary.Some? ==> s.acknowledged == Some(returned.boundary.value.id)) ==>
              forall row <- returned.app.store.outbox ::
                row.Key() == key && row.seqNo <= asked.app.readModel.watermark ==> s.revision >= row.revision)
  {
    ReadModelFromEvents(orders, before);
    var asked := Run(Initial(orders), before);
    var returned := Run(asked, during);
    var snapshot := SnapshotOf(asked.app, key, asked.boundary);
    if snapshot.Some? {
      assert TakenFrom(orders[key], MappedIn(Initial(orders), before), key, asked.app.readModel.orders[key]);
      if returned.boundary.Some? ==> snapshot.value.acknowledged == Some(returned.boundary.value.id) {
        forall row <- returned.app.store.outbox | row.Key() == key && row.seqNo <= asked.app.readModel.watermark
          ensures snapshot.value.revision >= row.revision {
          SnapshotSound(orders, before, during, key, row);
        }
      }
    }
  }

  // --- what the store published -------------------------------------------------------------------

  /** The status an order moves to, and what it says there. */
  predicate Follows(s: OrderState, t: OrderState, at: string) {
    && t.orderId == s.orderId && t.updatedAt == at
    && match s.status
       case Placed => t.status == Picking && t.progress == 30 && t.note == "Items are being picked."
       case Picking => t.status == Packed && t.progress == 55 && t.note == "Packed and labeled."
       case Packed => t.status == Shipped && t.progress == 80 && t.note == "Handed to the carrier."
       case Shipped => t.status == Delivered && t.progress == 100 && t.note == "Delivered to the front door."
       case Delivered => false
  }

  /** A new row for the order's current state, at the end of the timeline, whose record carries exactly that state. */
  predicate PublishedFor(app: AppData, after: AppData, order: StoredOrder) {
    var position := |app.timeline|;
    var row := OutboxEntry(|app.store.outbox| + 1, order.tenantId, order.state.orderId, order.revision, Some(Fixture(position)));
    && after.store == StoreData(after.store.orders, app.store.outbox + [row], row.seqNo)
    && after.timeline == app.timeline + [FixtureRecord(Some(order.state.orderId), Some(OrderEvent(order.tenantId, order.revision, order.state)))]
    && after.published == app.published[position := row]
    && after.readModel == app.readModel
  }

  lemma PublishedIs(app: AppData, store: StoreData, order: StoredOrder)
    requires StoreSound(app) && store == app.store.(orders := store.orders).Append(order)
    requires KeyOf(order) in store.orders && store.orders[KeyOf(order)] == order
    ensures var after := app.(store := store).Published(app.store.RowFor(order));
      PublishedFor(app, after, order) && after.store.orders == store.orders
  {
    PublishShape(app, store, order);
  }

  lemma NextFollows(order: StoredOrder, at: string)
    ensures match NextState(order, at)
            case None => order.state.status == Delivered
            case Some(next) => next == order.(revision := order.revision + 1, state := next.state) && Follows(order.state, next.state, at)
  {
  }

  /** Advancing an order commits its next state, at its next revision, and publishes it; a delivered or unknown one stays. */
  lemma AdvanceCommits(w: World, key: OrderKey, at: string)
    requires Inv(w)
    ensures var app, after := w.app, w.app.Advanced(key, at);
      if key !in app.store.orders || app.store.orders[key].state.status == Delivered then after == app
      else
        var order := app.store.orders[key];
        && key in after.store.orders && after.store.orders == app.store.orders[key := after.store.orders[key]]
        && after.store.orders[key] == order.(revision := order.revision + 1, state := after.store.orders[key].state)
        && Follows(order.state, after.store.orders[key].state, at)
        && PublishedFor(app, after, after.store.orders[key])
  {
    if key in w.app.store.orders {
      var order := w.app.store.orders[key];
      NextFollows(order, at);
      var next := NextState(order, at);
      if next.Some? { PublishedIs(w.app, w.app.store.Committed(next.value), next.value); }
    }
  }

  /** Re-publishing publishes an order's current state once more, and changes no order. */
  lemma RepublishRepeats(w: World, key: OrderKey)
    requires Inv(w)
    ensures var app, after := w.app, w.app.Republished(key);
      if key !in app.store.orders then after == app
      else after.store.orders == app.store.orders && PublishedFor(app, after, app.store.orders[key])
  {
    if key in w.app.store.orders {
      PublishedIs(w.app, w.app.store.Append(w.app.store.orders[key]), w.app.store.orders[key]);
    }
  }

  // --- runs in which no one else writes ---------------------------------------------------------

  /** No record is put on the timeline, or altered there, but by the application. */
  predicate OwnRun(events: seq<Event>) {
    forall e <- events :: !e.Inject? && !e.Alter?
  }

  /** The store held the order at that revision, in that state, at some point of the run. */
  predicate Held(start: World, events: seq<Event>, key: OrderKey, revision: nat, state: OrderState) {
    exists n :: 0 <= n <= |events| && HeldAt(start, events, n, key, revision, state)
  }

  predicate HeldAt(start: World, events: seq<Event>, n: int, key: OrderKey, revision: nat, state: OrderState)
    requires 0 <= n <= |events|
  {
    var orders := Run(start, events[..n]).app.store.orders;
    key in orders && orders[key].revision == revision && orders[key].state == state
  }

  lemma {:induction false} RunLast(w: World, events: seq<Event>, e: Event)
    ensures Run(w, events + [e]) == Next(Run(w, events), e)
    decreases |events|
  {
    if events == [] {
      assert [e][1..] == [];
    } else {
      assert (events + [e])[1..] == events[1..] + [e];
      RunLast(Next(w, events[0]), events[1..], e);
    }
  }

  lemma HeldOn(start: World, events: seq<Event>, e: Event, key: OrderKey, revision: nat, state: OrderState)
    requires Held(start, events, key, revision, state)
    ensures Held(start, events + [e], key, revision, state)
  {
    var n :| 0 <= n <= |events| && HeldAt(start, events, n, key, revision, state);
    assert (events + [e])[..n] == events[..n];
    assert HeldAt(start, events + [e], n, key, revision, state);
  }

  lemma HeldNow(start: World, events: seq<Event>, key: OrderKey)
    requires key in Run(start, events).app.store.orders
    ensures var o := Run(start, events).app.store.orders[key]; Held(start, events, key, o.revision, o.state)
  {
    assert events[..|events|] == events;
    assert HeldAt(start, events, |events|, key, Run(start, events).app.store.orders[key].revision, Run(start, events).app.store.orders[key].state);
  }

  ghost predicate RecordHeld(start: World, events: seq<Event>, record: FixtureRecord) {
    record.event.Some? &&
    var e := record.event.value; Held(start, events, OrderKey(e.tenantId, e.order.orderId), e.revision, e.order)
  }

  ghost predicate AllHeld(start: World, events: seq<Event>, app: AppData) {
    && (forall i :: 0 <= i < |app.timeline| ==> RecordHeld(start, events, app.timeline[i]))
    && (forall key <- app.readModel.orders :: Held(start, events, key, app.readModel.orders[key].revision, app.readModel.orders[key].state))
  }

  lemma AllHeldOn(start: World, events: seq<Event>, e: Event, app: AppData)
    requires AllHeld(start, events, app)
    ensures AllHeld(start, events + [e], app)
  {
    forall i | 0 <= i < |app.timeline| ensures RecordHeld(start, events + [e], app.timeline[i]) {
      var event := app.timeline[i].event.value;
      HeldOn(start, events, e, OrderKey(event.tenantId, event.order.orderId), event.revision, event.order);
    }
    forall key <- app.readModel.orders ensures Held(start, events + [e], key, app.readModel.orders[key].revision, app.readModel.orders[key].state) {
      HeldOn(start, events, e, key, app.readModel.orders[key].revision, app.readModel.orders[key].state);
    }
  }

  lemma PublishedHeld(start: World, events: seq<Event>, app: AppData, after: AppData, order: StoredOrder)
    requires AllHeld(start, events, app) && PublishedFor(app, after, order) && Held(start, events, KeyOf(order), order.revision, order.state)
    ensures AllHeld(start, events, after)
  {
  }

  lemma MappedHeld(start: World, events: seq<Event>, app: AppData, index: nat)
    requires AllHeld(start, events, app) && index < |app.timeline|
    ensures AllHeld(start, events, app.Mapped(index))
  {
    var event := app.timeline[index].event.value;
    assert RecordHeld(start, events, app.timeline[index]);
    var after := app.readModel.Applied(event, app.RowAt(index));
    forall key <- after.orders ensures Held(start, events, key, after.orders[key].revision, after.orders[key].state) {
      if after.orders[key] != app.readModel.orders[key] { assert key == OrderKey(event.tenantId, event.order.orderId); }
    }
  }

  lemma AdvanceHeld(start: World, events: seq<Event>, key: OrderKey, at: string, w: World)
    requires Inv(w) && AllHeld(start, events, w.app) && Run(start, events) == w.(app := w.app.Advanced(key, at))
    ensures AllHeld(start, events, w.app.Advanced(key, at))
  {
    AdvanceCommits(w, key, at);
    if key in w.app.store.orders && w.app.store.orders[key].state.status != Delivered {
      HeldNow(start, events, key);
      PublishedHeld(start, events, w.app, w.app.Advanced(key, at), w.app.Advanced(key, at).store.orders[key]);
    }
  }

  lemma RepublishHeld(start: World, events: seq<Event>, key: OrderKey, w: World)
    requires Inv(w) && AllHeld(start, events, w.app) && Run(start, events) == w.(app := w.app.Republished(key))
    ensures AllHeld(start, events, w.app.Republished(key))
  {
    RepublishRepeats(w, key);
    if key in w.app.store.orders {
      HeldNow(start, events, key);
      PublishedHeld(start, events, w.app, w.app.Republished(key), w.app.store.orders[key]);
    }
  }

  lemma StepHeld(start: World, events: seq<Event>, e: Event)
    requires var w := Run(start, events); Inv(w) && AllHeld(start, events, w.app)
    requires !e.Inject? && !e.Alter?
    ensures AllHeld(start, events + [e], Next(Run(start, events), e).app)
  {
    var w, all := Run(start, events), events + [e];
    RunLast(start, events, e);
    AllHeldOn(start, events, e, w.app);
    match e
    case Advance(key, at) => AdvanceHeld(start, all, key, at, w);
    case Republish(key) => RepublishHeld(start, all, key, w);
    case Deliver => if w.cursor < |w.app.timeline| && Deliverable(w.app, w.cursor) { MappedHeld(start, all, w.app, w.cursor); }
    case Skip(mapped, _) => if w.cursor < |w.app.timeline| && mapped { MappedHeld(start, all, w.app, w.cursor); }
  }

  lemma {:induction false} RunHeld(orders: map<OrderKey, StoredOrder>, events: seq<Event>)
    requires Filed(orders) && OwnRun(events)
    ensures AllHeld(Initial(orders), events, Run(Initial(orders), events).app)
    decreases |events|
  {
    var start := Initial(orders);
    InitialInv(orders);
    if events == [] {
      forall key <- orders ensures Held(start, [], key, orders[key].revision, orders[key].state) { HeldNow(start, [], key); }
    } else {
      var before, e := events[..|events| - 1], events[|events| - 1];
      assert events == before + [e];
      RunHeld(orders, before);
      RunKeeps(start, before);
      StepHeld(start, before, e);
      RunLast(start, before, e);
    }
  }

  /** When no one else writes to the timeline, a snapshot serves an order as the store held it, revision and state together. */
  lemma SnapshotOfStore(orders: map<OrderKey, StoredOrder>, events: seq<Event>, key: OrderKey)
    requires Filed(orders) && OwnRun(events) && key in orders
    ensures var w := Run(Initial(orders), events);
      var s := SnapshotOf(w.app, key, w.boundary);
      s.Some? && Held(Initial(orders), events, key, s.value.revision, s.value.state)
  {
    RunHeld(orders, events);
    ReadModelFromEvents(orders, events);
  }
}
