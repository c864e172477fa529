/**
 * The fixture-mode application: the order store publishes each outbox row by appending a record to
 * the timeline, and a read model fed by the same records serves the snapshots.
 */
module FixtureApp {
  import opened Wrappers
  import opened OrderDomain

  /** A timeline record: its key, and its value where it decodes as an order event. */
  datatype FixtureRecord = FixtureRecord(key: Option<string>, event: Option<OrderEvent>)

  datatype ReadData = ReadData(orders: map<OrderKey, StoredOrder>, watermark: nat)
  {
    /** The order's revision in the read model, 0 when it is not there. */
    function RevisionOf(key: OrderKey): nat {
      if key in orders then orders[key].revision else 0
    }

    function OrdersAfter(event: OrderEvent): map<OrderKey, StoredOrder> {
      var key := OrderKey(event.tenantId, event.order.orderId);
      if key in orders && event.revision > orders[key].revision
      then orders[key := orders[key].(revision := event.revision, state := event.order)]
      else orders
    }

    function Applied(event: OrderEvent, row: Option<OutboxEntry>): ReadData {
      if !IsOrderState(event.order) then this
      else
        ReadData(
          OrdersAfter(event),
          if row.Some? && Publishes(event, row.value) then Max(watermark, row.value.seqNo) else watermark)
    }
  }

  /** The event is the published form of the row: same order, same revision. */
  predicate Publishes(event: OrderEvent, row: OutboxEntry) {
    row.tenantId == event.tenantId && row.orderId == event.order.orderId && row.revision == event.revision
  }

  class ReadModel {
    var orders: map<OrderKey, StoredOrder>
    var watermark: nat

    function Data(): ReadData
      reads this
    {
      ReadData(orders, watermark)
    }

    constructor (initial: map<OrderKey, StoredOrder>)
      ensures Data() == ReadData(initial, 0)
    {
      orders := initial;
      watermark := 0;
    }

    /** Applies a record the gateway read. `row` is the outbox row published at its position, if any. */
    method Apply(event: OrderEvent, row: Option<OutboxEntry>)
      modifies this
      ensures Data() == old(Data()).Applied(event, row)
    {
      if !IsOrderState(event.order) {
        return;
      }
      var key := OrderKey(event.tenantId, event.order.orderId);
      if key in orders && event.revision > orders[key].revision {
        orders := orders[key := orders[key].(revision := event.revision, state := event.order)];
      }
      if row.Some? && Publishes(event, row.value) {
        watermark := Max(watermark, row.value.seqNo);
      }
    }

    method Read(tenantId: string, orderId: string) returns (read: Option<(StoredOrder, nat)>)
      ensures read.Some? <==> OrderKey(tenantId, orderId) in orders
      ensures read.Some? ==> read.value == (orders[OrderKey(tenantId, orderId)], watermark)
    {
      var key := OrderKey(tenantId, orderId);
      read := if key in orders then Some((orders[key], watermark)) else None;
    }
  }

  /** The whole application as one value. */
  datatype AppData = AppData(
    store: StoreData,
    timeline: seq<FixtureRecord>,
    published: map<nat, OutboxEntry>,
    readModel: ReadData)
  {
    /** Publishing `row`, already appended to the store: its order's current state joins the timeline. */
    function Published(row: OutboxEntry): AppData
      requires row.Key() in store.orders
    {
      var position := Fixture(|timeline|);
      AppData(
        store.(outbox := MarkFirst(store.outbox, row.seqNo, position)),
        timeline + [FixtureRecord(Some(row.orderId), Some(OrderEventOf(store.orders[row.Key()])))],
        published[|timeline| := row.(position := Some(position))],
        readModel)
    }

    function Advanced(key: OrderKey, at: string): AppData {
      if key !in store.orders then this
      else
        match NextState(store.orders[key], at)
        case None => this
        case Some(next) =>
          if KeyOf(store.orders[key]) != key then this
          else this.(store := store.Committed(next)).Published(store.RowFor(next))
    }

    function Republished(key: OrderKey): AppData {
      if key !in store.orders || KeyOf(store.orders[key]) != key then this
      else this.(store := store.Append(store.orders[key])).Published(store.RowFor(store.orders[key]))
    }

    function RowAt(index: nat): Option<OutboxEntry> {
      if index in published then Some(published[index]) else None
    }

    /** The map handler's effect on the read model. */
    function Mapped(index: nat): AppData
      requires index < |timeline|
    {
      match timeline[index].event
      case None => this
      case Some(event) => this.(readModel := readModel.Applied(event, RowAt(index)))
    }

    /** What the guard is shown for an incident at `index`. */
    function EvidenceAt(index: nat, prior: Option<RecoveryBoundary>, orders: seq<StoredOrder>): RecoveryEvidence {
      RecoveryEvidence(store.outbox, orders, Fixture(index), prior,
                       if index >= |timeline| then KeyUnknown
                       else match timeline[index].key case None => NoKey case Some(k) => Key(k))
    }
  }

  /** What a snapshot returns: the order's revision and, when it covers the boundary, the acknowledgment. */
  datatype SnapshotResult = SnapshotResult(revision: nat, state: OrderState, acknowledged: Option<nat>)

  /** Stored orders sit under their own key; every store the application builds is filed this way. */
  predicate Filed(orders: map<OrderKey, StoredOrder>) {
    forall key :: key in orders ==> KeyOf(orders[key]) == key
  }

  class FixtureApplication {
    const store: OrderStore
    const readModel: ReadModel
    var timeline: seq<FixtureRecord>
    var published: map<nat, OutboxEntry>

    ghost predicate Valid()
      reads this, store
    {
      Filed(store.orders)
    }

    ghost function Data(): AppData
      reads this, store, readModel
    {
      AppData(store.Data(), timeline, published, readModel.Data())
    }

    /** Both the store and the read model start from the same orders, and nothing is published. */
    constructor (initial: map<OrderKey, StoredOrder>)
      requires Filed(initial)
      ensures Valid() && fresh(store) && fresh(readModel)
      ensures Data() == AppData(StoreData(initial, [], 0), [], map[], ReadData(initial, 0))
    {
      store := new OrderStore(StoreData(initial, [], 0));
      readModel := new ReadModel(initial);
      timeline := [];
      published := map[];
    }

    method Publish(row: OutboxEntry)
      requires row.Key() in store.orders
      modifies this, store
      ensures Data() == old(Data()).Published(row)
    {
      var order := store.orders[row.Key()];
      var position := Fixture(|timeline|);
      timeline := timeline + [FixtureRecord(Some(row.orderId), Some(OrderEventOf(order)))];
      store.MarkPublished(row.seqNo, position);
      published := published[position.index := row.(position := Some(position))];
    }

    /** Commits an order's next state and publishes it; nothing for an unknown or delivered order. */
    method Advance(tenantId: string, orderId: string, at: string)
      requires Valid()
      modifies this, store
      ensures Valid() && Data() == old(Data()).Advanced(OrderKey(tenantId, orderId), at)
    {
      var key := OrderKey(tenantId, orderId);
      if key !in store.orders {
        return;
      }
      var next := NextState(store.orders[key], at);
      if next.None? {
        return;
      }
      assert store.Data().Advances(next.value);
      var committed := store.Commit(next.value);
      Publish(committed.value);
    }

    /** Publishes an order's current state again; nothing for an unknown order. */
    method Republish(tenantId: string, orderId: string)
      requires Valid()
      modifies this, store
      ensures Valid() && Data() == old(Data()).Republished(OrderKey(tenantId, orderId))
    {
      var row := store.Republish(tenantId, orderId);
      if row.Some? {
        Publish(row.value);
      }
    }

    /** The map handler: feeds the read model the record the gateway read. */
    method Map(index: nat)
      requires index < |timeline|
      modifies readModel
      ensures Data() == old(Data()).Mapped(index)
    {
      if timeline[index].event.Some? {
        readModel.Apply(timeline[index].event.value, if index in published then Some(published[index]) else None);
      }
    }

    /** The snapshot handler: one read, and the acknowledgment that read supports. */
    method Snapshot(tenantId: string, orderId: string, recovery: Option<RecoveryBoundary>) returns (r: Option<SnapshotResult>)
      ensures r == SnapshotOf(Data(), OrderKey(tenantId, orderId), recovery)
    {
      var read := readModel.Read(tenantId, orderId);
      if read.None? {
        return None;
      }
      r := Some(SnapshotResult(read.value.0.revision, read.value.0.state, AcknowledgeRecovery(recovery, read.value.1)));
    }

    /** The recovery guard, given the failed record's key from the timeline. */
    method Recover(index: nat, prior: Option<RecoveryBoundary>, orders: seq<StoredOrder>) returns (d: RecoveryDecision)
      ensures d == Decide(Data().EvidenceAt(index, prior, orders))
    {
      var sourceKey :=
        if index >= |timeline| then KeyUnknown
        else match timeline[index].key case None => NoKey case Some(k) => Key(k);
      d := DecideRecovery(RecoveryEvidence(store.outbox, orders, Fixture(index), prior, sourceKey));
    }
  }

  function SnapshotOf(app: AppData, key: OrderKey, recovery: Option<RecoveryBoundary>): Option<SnapshotResult> {
    if key !in app.readModel.orders then None
    else
      var order := app.readModel.orders[key];
      Some(SnapshotResult(order.revision, order.state, AcknowledgeRecovery(recovery, app.readModel.watermark)))
  }
}
