/**
 * The order dashboard's domain: the order store with its outbox, and the recovery guard that
 * answers, from the outbox alone, whether a corrupt record may be skipped.
 *
 * Revisions and Kafka offsets are canonical decimal strings in the program and natural numbers
 * here; the map key "tenant/order" is the pair of its two parts.
 */
module OrderDomain {
  import opened Wrappers

  /** JSON data, as a recovery boundary's context holds it. */
  datatype Json =
    | JNull
    | JBool(flag: bool)
    | JNumber(number: real)
    | JString(text: string)
    | JArray(items: seq<Json>)
    | JObject(members: map<string, Json>)

  datatype OrderStatus = Placed | Picking | Packed | Shipped | Delivered

  datatype OrderState = OrderState(orderId: string, status: OrderStatus, progress: int, updatedAt: string, note: string)

  datatype StoredOrder = StoredOrder(tenantId: string, owner: string, revision: nat, state: OrderState)

  datatype OrderEvent = OrderEvent(tenantId: string, revision: nat, order: OrderState)

  datatype OrderKey = OrderKey(tenantId: string, orderId: string)

  datatype SourcePosition =
    | Kafka(topic: string, partition: nat, offset: nat)
    | Fixture(index: nat)

  datatype OutboxEntry =
    OutboxEntry(seqNo: nat, tenantId: string, orderId: string, revision: nat, position: Option<SourcePosition>)
  {
    function Key(): OrderKey {
      OrderKey(tenantId, orderId)
    }
  }

  const SEED_REVISION: nat := 1

  datatype Step = Step(status: OrderStatus, progress: int, note: string)

  const STATUS_STEPS: seq<Step> := [
    Step(Placed, 5, "Order received."),
    Step(Picking, 30, "Items are being picked."),
    Step(Packed, 55, "Packed and labeled."),
    Step(Shipped, 80, "Handed to the carrier."),
    Step(Delivered, 100, "Delivered to the front door.")
  ]

  function StepIndex(status: OrderStatus): (i: nat)
    ensures i < |STATUS_STEPS| && STATUS_STEPS[i].status == status
  {
    match status
    case Placed => 0
    case Picking => 1
    case Packed => 2
    case Shipped => 3
    case Delivered => 4
  }

  /** The next state of an order, or None when it is already delivered. */
  function NextState(order: StoredOrder, now: string): (next: Option<StoredOrder>)
    ensures next.None? <==> order.state.status == Delivered
    ensures next.Some? ==>
      && KeyOf(next.value) == KeyOf(order)
      && next.value.owner == order.owner
      && next.value.revision > order.revision
      && next.value.state.progress > STATUS_STEPS[StepIndex(order.state.status)].progress
  {
    var index := StepIndex(order.state.status);
    if index + 1 >= |STATUS_STEPS| then None
    else
      var step := STATUS_STEPS[index + 1];
      Some(order.(revision := order.revision + 1,
                  state := order.state.(status := step.status, progress := step.progress, note := step.note, updatedAt := now)))
  }

  function KeyOf(order: StoredOrder): OrderKey {
    OrderKey(order.tenantId, order.state.orderId)
  }

  /** The application's own check of an order state; it mirrors the public schema. */
  predicate IsOrderState(state: OrderState) {
    && 1 <= |state.orderId| <= 64
    && 0 <= state.progress <= 100
    && |state.updatedAt| <= 40
    && |state.note| <= 200
  }

  function OrderEventOf(order: StoredOrder): OrderEvent {
    OrderEvent(order.tenantId, order.revision, order.state)
  }

  // --- order store and outbox ------------------------------------------------------

  /** The store's contents as one value: what a database transaction would see. */
  datatype StoreData = StoreData(orders: map<OrderKey, StoredOrder>, outbox: seq<OutboxEntry>, watermark: nat)
  {
    function NextSeq(): nat {
      if outbox == [] then 1 else outbox[|outbox| - 1].seqNo + 1
    }

    function Append(order: StoredOrder): StoreData {
      this.(outbox := outbox + [RowFor(order)], watermark := NextSeq())
    }

    function RowFor(order: StoredOrder): OutboxEntry {
      OutboxEntry(NextSeq(), order.tenantId, order.state.orderId, order.revision, None)
    }

    predicate Advances(order: StoredOrder) {
      KeyOf(order) in orders ==> order.revision > orders[KeyOf(order)].revision
    }

    function Committed(order: StoredOrder): StoreData {
      this.(orders := orders[KeyOf(order) := order]).Append(order)
    }
  }

  /** `rows` with the first row numbered `seqNo`, if any, placed at `position`. */
  function MarkFirst(rows: seq<OutboxEntry>, seqNo: nat, position: SourcePosition): (marked: seq<OutboxEntry>)
    ensures |marked| == |rows|
  {
    if rows == [] then []
    else if rows[0].seqNo == seqNo then [rows[0].(position := Some(position))] + rows[1..]
    else [rows[0]] + MarkFirst(rows[1..], seqNo, position)
  }

  /** Only the first row with that number changes, and only in its position. */
  lemma {:induction false} MarkFirstAt(rows: seq<OutboxEntry>, k: nat, position: SourcePosition)
    requires k < |rows|
    requires forall i :: 0 <= i < k ==> rows[i].seqNo != rows[k].seqNo
    ensures MarkFirst(rows, rows[k].seqNo, position) == rows[k := rows[k].(position := Some(position))]
  {
    if k > 0 {
      MarkFirstAt(rows[1..], k - 1, position);
      assert rows == [rows[0]] + rows[1..];
    }
  }

  lemma {:induction false} MarkFirstMissing(rows: seq<OutboxEntry>, seqNo: nat, position: SourcePosition)
    requires forall i :: 0 <= i < |rows| ==> rows[i].seqNo != seqNo
    ensures MarkFirst(rows, seqNo, position) == rows
  {
    if rows != [] {
      MarkFirstMissing(rows[1..], seqNo, position);
    }
  }

  /** Thrown by commit when the new revision does not advance the order. */
  datatype CommitError = DoesNotAdvance(revision: nat, current: nat)

  /**
   * The application's order store. A change sets the order, appends its outbox row and raises
   * the watermark in one step.
   */
  class OrderStore {
    var orders: map<OrderKey, StoredOrder>
    var outbox: seq<OutboxEntry>
    var watermark: nat

    function Data(): StoreData
      reads this
    {
      StoreData(orders, outbox, watermark)
    }

    constructor (data: StoreData)
      ensures Data() == data
    {
      orders := data.orders;
      outbox := data.outbox;
      watermark := data.watermark;
    }

    /** The snapshot query: one order and the watermark, read together. */
    method Read(tenantId: string, orderId: string) returns (read: Option<(StoredOrder, nat)>)
      ensures read.Some? <==> OrderKey(tenantId, orderId) in orders
      ensures read.Some? ==> read.value == (orders[OrderKey(tenantId, orderId)], watermark)
    {
      var key := OrderKey(tenantId, orderId);
      read := if key in orders then Some((orders[key], watermark)) else None;
    }

    /** Writes an order's new state and appends its outbox row, in one step. */
    method Commit(order: StoredOrder) returns (r: Result<OutboxEntry, CommitError>)
      modifies this
      ensures r.Ok? <==> old(Data()).Advances(order)
      ensures r.Ok? ==> Data() == old(Data()).Committed(order) && r.value == old(Data()).RowFor(order)
      ensures r.Err? ==> Data() == old(Data())
    {
      var key := KeyOf(order);
      if key in orders && order.revision <= orders[key].revision {
        return Err(DoesNotAdvance(order.revision, orders[key].revision));
      }
      orders := orders[key := order];
      var entry := AppendRow(order);
      r := Ok(entry);
    }

    /** Appends an outbox row that publishes an order's current state again, unchanged. */
    method Republish(tenantId: string, orderId: string) returns (r: Option<OutboxEntry>)
      modifies this
      ensures r.Some? <==> OrderKey(tenantId, orderId) in old(orders)
      ensures r.Some? ==>
        var order := old(orders)[OrderKey(tenantId, orderId)];
        Data() == old(Data()).Append(order) && r.value == old(Data()).RowFor(order)
      ensures r.None? ==> Data() == old(Data())
    {
      var key := OrderKey(tenantId, orderId);
      if key !in orders {
        return None;
      }
      var entry := AppendRow(orders[key]);
      r := Some(entry);
    }

    /** Records where a published row landed. */
    method MarkPublished(seqNo: nat, position: SourcePosition)
      modifies this
      ensures Data() == old(Data()).(outbox := MarkFirst(old(outbox), seqNo, position))
    {
      var i := 0;
      while i < |outbox| && outbox[i].seqNo != seqNo
        invariant 0 <= i <= |outbox|
        invariant forall k :: 0 <= k < i ==> outbox[k].seqNo != seqNo
      {
        i := i + 1;
      }
      if i < |outbox| {
        MarkFirstAt(outbox, i, position);
        outbox := outbox[i := outbox[i].(position := Some(position))];
      } else {
        MarkFirstMissing(outbox, seqNo, position);
      }
    }

    method AppendRow(order: StoredOrder) returns (entry: OutboxEntry)
      modifies this
      ensures Data() == old(Data()).Append(order) && entry == old(Data()).RowFor(order)
    {
      var last := if outbox == [] then 0 else outbox[|outbox| - 1].seqNo;
      entry := OutboxEntry(last + 1, order.tenantId, order.state.orderId, order.revision, None);
      outbox := outbox + [entry];
      watermark := entry.seqNo;
    }
  }

  // --- recovery guard ----------------------------------------------------------------

  const MAX_SAFE_INTEGER: int := 0x1F_FFFF_FFFF_FFFF

  predicate IsOrderIdChar(c: char) {
    'a' <= c <= 'z' || 'A' <= c <= 'Z' || '0' <= c <= '9' || c == '_' || c == '-'
  }

  /** Order IDs as the application issues them. */
  predicate IsOrderId(s: string) {
    1 <= |s| <= 64 && forall i :: 0 <= i < |s| ==> IsOrderIdChar(s[i])
  }

  /** The watermark a boundary's context requires, or None when this application did not write the context. */
  function BoundaryWatermark(context: Json): Option<nat> {
    if !context.JObject? || "watermark" !in context.members then None
    else
      var w := context.members["watermark"];
      if w.JNumber? && w.number == w.number.Floor as real && 0 <= w.number.Floor <= MAX_SAFE_INTEGER
      then Some(w.number.Floor)
      else None
  }

  /** The context the guard returns with an approval. */
  function ContextFor(watermark: nat): Json {
    JObject(map["watermark" := JNumber(watermark as real)])
  }

  /** A context the guard wrote carries its watermark back, until the number leaves the exact range of a double. */
  lemma ContextRoundTrip(watermark: nat)
    ensures BoundaryWatermark(ContextFor(watermark)) == if watermark <= MAX_SAFE_INTEGER then Some(watermark) else None
  {
    var w := ContextFor(watermark).members["watermark"];
    assert w.number.Floor == watermark;
  }

  datatype RecoveryBoundary = RecoveryBoundary(id: nat, context: Json)

  /** The acknowledgment half of a snapshot: the boundary's ID, only when the read covers its watermark. */
  function AcknowledgeRecovery(recovery: Option<RecoveryBoundary>, watermark: nat): (ack: Option<nat>)
    ensures ack.Some? <==>
      && recovery.Some?
      && BoundaryWatermark(recovery.value.context).Some?
      && BoundaryWatermark(recovery.value.context).value <= watermark
    ensures ack.Some? ==> ack.value == recovery.value.id
  {
    if recovery.None? then None
    else
      match BoundaryWatermark(recovery.value.context)
      case None => None
      case Some(required) => if watermark >= required then Some(recovery.value.id) else None
  }

  predicate SamePosition(a: SourcePosition, b: SourcePosition) {
    match (a, b)
    case (Kafka(t, p, o), Kafka(t', p', o')) => t == t' && p == p' && o == o'
    case (Fixture(i), Fixture(j)) => i == j
    case _ => false
  }

  /** True when `later` follows `earlier` in one ordered stream: the same partition, or the fixture timeline. */
  predicate IsAfter(later: SourcePosition, earlier: SourcePosition) {
    match (later, earlier)
    case (Kafka(t, p, o), Kafka(t', p', o')) => t == t' && p == p' && o > o'
    case (Fixture(i), Fixture(j)) => i > j
    case _ => false
  }

  /** What is known of the failed record's key: nothing, that it has none, or the key. */
  datatype SourceKey = KeyUnknown | NoKey | Key(key: string)

  datatype RecoveryEvidence = RecoveryEvidence(
    outbox: seq<OutboxEntry>,
    orders: seq<StoredOrder>,
    position: SourcePosition,
    prior: Option<RecoveryBoundary>,
    sourceKey: SourceKey)

  datatype HoldReason =
    | PriorUnreadable
    | PositionAmbiguous
    | KeyMismatch
    | PositionUnknown
    | KeyNotAnOrder
    | OrderMissing
    | NotRepublished(order: OrderKey)

  datatype RecoveryDecision = Hold(reason: HoldReason) | Recoverable(watermark: nat)

  /** An order the failed record may concern. `neverChanged` excuses an order from a re-publish. */
  datatype Affected = Affected(order: OrderKey, neverChanged: bool)

  predicate At(row: OutboxEntry, position: SourcePosition) {
    row.position.Some? && SamePosition(row.position.value, position)
  }

  /** A published row of `order` later in the stream than `position`. */
  predicate RepublishedAfter(row: OutboxEntry, order: OrderKey, position: SourcePosition) {
    row.Key() == order && row.position.Some? && IsAfter(row.position.value, position)
  }

  function RowsAt(outbox: seq<OutboxEntry>, position: SourcePosition): (rows: seq<OutboxEntry>)
    ensures forall row :: row in rows <==> row in outbox && At(row, position)
    ensures |rows| <= |outbox|
  {
    if outbox == [] then []
    else (if At(outbox[0], position) then [outbox[0]] else []) + RowsAt(outbox[1..], position)
  }

  function FirstAfter(outbox: seq<OutboxEntry>, order: OrderKey, position: SourcePosition): (row: Option<OutboxEntry>)
    ensures row.Some? <==> exists r :: r in outbox && RepublishedAfter(r, order, position)
    ensures row.Some? ==> row.value in outbox && RepublishedAfter(row.value, order, position)
  {
    if outbox == [] then None
    else if RepublishedAfter(outbox[0], order, position) then Some(outbox[0])
    else FirstAfter(outbox[1..], order, position)
  }

  function OrdersNamed(orders: seq<StoredOrder>, orderId: string): (affected: seq<Affected>)
    ensures forall a :: a in affected <==>
      exists o :: o in orders && o.state.orderId == orderId && a == Affected(KeyOf(o), o.revision == SEED_REVISION)
  {
    if orders == [] then []
    else
      (if orders[0].state.orderId == orderId then [Affected(KeyOf(orders[0]), orders[0].revision == SEED_REVISION)] else [])
      + OrdersNamed(orders[1..], orderId)
  }

  /** The orders the failed record may concern, or why they cannot be told. */
  function AffectedBy(e: RecoveryEvidence): Result<seq<Affected>, HoldReason> {
    var rows := RowsAt(e.outbox, e.position);
    if |rows| > 1 then Err(PositionAmbiguous)
    else if |rows| == 1 then
      if e.sourceKey != KeyUnknown && e.sourceKey != Key(rows[0].orderId) then Err(KeyMismatch)
      else Ok([Affected(rows[0].Key(), false)])
    else
      match e.sourceKey
      case KeyUnknown => Err(PositionUnknown)
      case NoKey => Err(KeyNotAnOrder)
      case Key(key) =>
        if !IsOrderId(key) then Err(KeyNotAnOrder)
        else if OrdersNamed(e.orders, key) == [] then Err(OrderMissing)
        else Ok(OrdersNamed(e.orders, key))
  }

  /** The watermark before any re-publish is found: the carried one, and at least the failed row's. */
  function BaseWatermark(e: RecoveryEvidence): nat
    requires e.prior.Some? ==> BoundaryWatermark(e.prior.value.context).Some?
  {
    var carried := if e.prior.None? then 0 else BoundaryWatermark(e.prior.value.context).value;
    var rows := RowsAt(e.outbox, e.position);
    Max(carried, if rows == [] then 0 else rows[0].seqNo)
  }

  function Assess(e: RecoveryEvidence, affected: seq<Affected>, watermark: nat): RecoveryDecision {
    if affected == [] then Recoverable(watermark)
    else if affected[0].neverChanged then Assess(e, affected[1..], watermark)
    else
      match FirstAfter(e.outbox, affected[0].order, e.position)
      case None => Hold(NotRepublished(affected[0].order))
      case Some(row) => Assess(e, affected[1..], Max(watermark, row.seqNo))
  }

  function Decide(e: RecoveryEvidence): RecoveryDecision {
    if e.prior.Some? && BoundaryWatermark(e.prior.value.context).None? then Hold(PriorUnreadable)
    else
      match AffectedBy(e)
      case Err(reason) => Hold(reason)
      case Ok(affected) => Assess(e, affected, BaseWatermark(e))
  }

  /** The guard as the program runs it, with a loop over the affected orders that raises the watermark. */
  method DecideRecovery(e: RecoveryEvidence) returns (d: RecoveryDecision)
    ensures d == Decide(e)
  {
    var carried: nat := 0;
    if e.prior.Some? {
      match BoundaryWatermark(e.prior.value.context) {
        case None => return Hold(PriorUnreadable);
        case Some(w) => carried := w;
      }
    }
    var failed := RowsAt(e.outbox, e.position);
    if |failed| > 1 {
      return Hold(PositionAmbiguous);
    }
    var affected: seq<Affected>;
    if |failed| == 1 {
      if e.sourceKey != KeyUnknown && e.sourceKey != Key(failed[0].orderId) {
        return Hold(KeyMismatch);
      }
      affected := [Affected(failed[0].Key(), false)];
    } else if e.sourceKey == KeyUnknown {
      return Hold(PositionUnknown);
    } else if e.sourceKey == NoKey || !IsOrderId(e.sourceKey.key) {
      return Hold(KeyNotAnOrder);
    } else {
      affected := OrdersNamed(e.orders, e.sourceKey.key);
      if affected == [] {
        return Hold(OrderMissing);
      }
    }
    d := AssessAll(e, affected, Max(carried, if failed == [] then 0 else failed[0].seqNo));
  }

  /** The running watermark over the affected orders. */
  method AssessAll(e: RecoveryEvidence, affected: seq<Affected>, start: nat) returns (d: RecoveryDecision)
    ensures d == Assess(e, affected, start)
  {
    var watermark := start;
    var k := 0;
    while k < |affected|
      invariant 0 <= k <= |affected|
      invariant Assess(e, affected[k..], watermark) == Assess(e, affected, start)
    {
      assert affected[k..][1..] == affected[k + 1..];
      if !affected[k].neverChanged {
        var republished := FirstAfter(e.outbox, affected[k].order, e.position);
        if republished.None? {
          return Hold(NotRepublished(affected[k].order));
        }
        watermark := Max(watermark, republished.value.seqNo);
      }
      k := k + 1;
    }
    d := Recoverable(watermark);
  }

  // --- what an approval means -----------------------------------------------------------

  /** Every affected order is excused or has a re-publish after the failed record. */
  ghost predicate AllVouched(e: RecoveryEvidence, affected: seq<Affected>) {
    forall a :: a in affected && !a.neverChanged ==> exists r :: r in e.outbox && RepublishedAfter(r, a.order, e.position)
  }

  /** A row at or below `watermark` re-publishes `order` after the failed record. */
  ghost predicate CoveredBy(e: RecoveryEvidence, order: OrderKey, watermark: nat) {
    exists r :: r in e.outbox && RepublishedAfter(r, order, e.position) && r.seqNo <= watermark
  }

  lemma {:induction false} AssessExact(e: RecoveryEvidence, affected: seq<Affected>, watermark: nat)
    ensures Assess(e, affected, watermark).Recoverable? <==> AllVouched(e, affected)
    ensures Assess(e, affected, watermark).Recoverable? ==>
      var raised := Assess(e, affected, watermark).watermark;
      && raised >= watermark
      && (forall a :: a in affected && !a.neverChanged ==> CoveredBy(e, a.order, raised))
      && (raised == watermark || exists r :: r in e.outbox && r.seqNo == raised)
  {
    if affected != [] {
      var a, rest := affected[0], affected[1..];
      if a.neverChanged {
        AssessExact(e, rest, watermark);
      } else {
        var found := FirstAfter(e.outbox, a.order, e.position);
        if found.Some? {
          AssessExact(e, rest, Max(watermark, found.value.seqNo));
          assert AllVouched(e, affected) <==> AllVouched(e, rest);
        } else {
          assert a in affected;
        }
      }
    }
  }

  /** The record at the incident's position is the one published for the outbox row `failed`. */
  ghost predicate OwnRecord(e: RecoveryEvidence, failed: OutboxEntry) {
    RowsAt(e.outbox, e.position) == [failed] && (e.sourceKey == KeyUnknown || e.sourceKey == Key(failed.orderId))
  }

  /** No row was published at the position, and the record's key names an existing order. */
  ghost predicate ForeignRecord(e: RecoveryEvidence, orderId: string) {
    && (forall r :: r in e.outbox ==> !At(r, e.position))
    && e.sourceKey == Key(orderId)
    && IsOrderId(orderId)
    && exists o :: o in e.orders && o.state.orderId == orderId
  }

  /** Every order with that ID, in any tenant, never changed or was re-published after the record. */
  ghost predicate ForeignVouched(e: RecoveryEvidence, orderId: string) {
    forall o :: o in e.orders && o.state.orderId == orderId ==>
      o.revision == SEED_REVISION || exists r :: r in e.outbox && RepublishedAfter(r, KeyOf(o), e.position)
  }

  /** A row published at the position decides the case alone. */
  lemma DecideOwn(e: RecoveryEvidence)
    requires |RowsAt(e.outbox, e.position)| == 1
    requires e.prior.Some? ==> BoundaryWatermark(e.prior.value.context).Some?
    ensures var failed := RowsAt(e.outbox, e.position)[0];
      Decide(e).Recoverable? <==>
        OwnRecord(e, failed) && exists r :: r in e.outbox && RepublishedAfter(r, failed.Key(), e.position)
  {
    var rows := RowsAt(e.outbox, e.position);
    var failed := rows[0];
    assert rows == [failed];
    if AffectedBy(e).Ok? {
      var affected := [Affected(failed.Key(), false)];
      AssessExact(e, affected, BaseWatermark(e));
      assert affected[0] in affected;
    }
  }

  lemma DecideForeign(e: RecoveryEvidence)
    requires RowsAt(e.outbox, e.position) == []
    requires e.prior.Some? ==> BoundaryWatermark(e.prior.value.context).Some?
    ensures Decide(e).Recoverable? <==>
      e.sourceKey.Key? && ForeignRecord(e, e.sourceKey.key) && ForeignVouched(e, e.sourceKey.key)
  {
    assert forall r :: r in e.outbox && At(r, e.position) ==> r in RowsAt(e.outbox, e.position);
    if e.sourceKey.Key? {
      ForeignOrders(e, e.sourceKey.key);
      if AffectedBy(e).Ok? {
        AssessExact(e, AffectedBy(e).value, BaseWatermark(e));
      }
    }
  }

  /** What the guard has to know to approve a skip. */
  ghost predicate Approvable(e: RecoveryEvidence) {
    || (exists failed :: OwnRecord(e, failed) && exists r :: r in e.outbox && RepublishedAfter(r, failed.Key(), e.position))
    || (e.sourceKey.Key? && ForeignRecord(e, e.sourceKey.key) && ForeignVouched(e, e.sourceKey.key))
  }

  /**
   * The guard answers recoverable exactly when the prior boundary can be carried forward and either
   * the application published the record and re-published its order since, or the record is a
   * stranger's and every order its key could name is unchanged or re-published since.
   */
  lemma DecideExact(e: RecoveryEvidence)
    ensures Decide(e).Recoverable? <==>
      (e.prior.Some? ==> BoundaryWatermark(e.prior.value.context).Some?) && Approvable(e)
  {
    var rows := RowsAt(e.outbox, e.position);
    if e.prior.Some? && BoundaryWatermark(e.prior.value.context).None? {
    } else if |rows| == 1 {
      DecideOwn(e);
      assert rows[0] in rows;
      assert forall failed :: OwnRecord(e, failed) ==> rows == [failed] && failed == rows[0];
    } else if |rows| == 0 {
      DecideForeign(e);
    } else {
      assert rows[0] in rows;
    }
  }

  lemma ForeignOrders(e: RecoveryEvidence, orderId: string)
    ensures OrdersNamed(e.orders, orderId) == [] <==> forall o :: o in e.orders ==> o.state.orderId != orderId
    ensures AllVouched(e, OrdersNamed(e.orders, orderId)) <==> ForeignVouched(e, orderId)
  {
    var affected := OrdersNamed(e.orders, orderId);
    forall o | o in e.orders && o.state.orderId == orderId
      ensures Affected(KeyOf(o), o.revision == SEED_REVISION) in affected
    {
    }
    if affected != [] {
      assert affected[0] in affected;
    }
    if AllVouched(e, affected) {
      forall o | o in e.orders && o.state.orderId == orderId && o.revision != SEED_REVISION
        ensures exists r :: r in e.outbox && RepublishedAfter(r, KeyOf(o), e.position)
      {
        assert Affected(KeyOf(o), false) in affected;
      }
    }
  }

  /**
   * The approved watermark carries the prior boundary's and the failed row's forward, holds a
   * re-publish of every order that needs one, and is no higher than one of those.
   */
  lemma ApprovalCovers(e: RecoveryEvidence)
    requires Decide(e).Recoverable?
    ensures var w := Decide(e).watermark;
      && (e.prior.Some? ==> w >= BoundaryWatermark(e.prior.value.context).value)
      && (forall r :: r in e.outbox && At(r, e.position) ==> r.seqNo <= w && CoveredBy(e, r.Key(), w))
      && ((exists r :: r in e.outbox && r.seqNo == w) || w == 0
          || (e.prior.Some? && w == BoundaryWatermark(e.prior.value.context).value))
  {
    var rows := RowsAt(e.outbox, e.position);
    var affected := AffectedBy(e).value;
    AssessExact(e, affected, BaseWatermark(e));
    forall r | r in e.outbox && At(r, e.position)
      ensures r.seqNo <= Decide(e).watermark && CoveredBy(e, r.Key(), Decide(e).watermark)
    {
      assert r in rows;
      assert r == rows[0];
      assert Affected(r.Key(), false) in affected;
    }
    if rows != [] {
      assert rows[0] in rows;
    }
  }
}
