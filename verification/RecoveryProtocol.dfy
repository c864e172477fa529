/**
 * The fixture gateway around the application: it reads the timeline in order, quarantines what it
 * cannot deliver, and skips a quarantined record only when the guard approves, installing a new
 * recovery boundary. A snapshot that acknowledges the boundary in force must not miss any change
 * the application committed up to its watermark, skipped records included.
 */
module RecoveryProtocol {
  import opened Wrappers
  import opened OrderDomain
  import opened FixtureApp

  /** `boundary` is the one in force, `nextId` the next unused boundary ID. */
  datatype World = World(app: AppData, cursor: nat, boundary: Option<RecoveryBoundary>, nextId: nat)

  datatype Event =
    | Advance(key: OrderKey, at: string)
    | Republish(key: OrderKey)
    | Inject(record: FixtureRecord)               // a record the application did not publish
    | Alter(index: nat, record: FixtureRecord)    // corruption of a record not yet read
    | Deliver                                     // the record at the cursor is read and mapped
    | Skip(mapped: bool, orders: seq<StoredOrder>) // it fails, before or after its map handler ran

  /**
   * The runs considered deliver a record only when its data fits the public schema, and one published
   * for an outbox row only while it still is that row's event. The last is a restriction on the runs:
   * a map handler given such a record altered would deliver what it says, or deliver nothing.
   */
  predicate Deliverable(app: AppData, index: nat)
    requires index < |app.timeline|
  {
    match app.timeline[index].event
    case None => app.RowAt(index).None?
    case Some(event) => IsOrderState(event.order) && (app.RowAt(index).Some? ==> Publishes(event, app.RowAt(index).value))
  }

  /** The boundary an approved skip installs; it supersedes the one in force. */
  function Installed(id: nat, watermark: nat): RecoveryBoundary {
    RecoveryBoundary(id, ContextFor(watermark))
  }

  function Next(w: World, event: Event): World {
    match event
    case Advance(key, at) => w.(app := w.app.Advanced(key, at))
    case Republish(key) => w.(app := w.app.Republished(key))
    case Inject(record) => w.(app := w.app.(timeline := w.app.timeline + [record]))
    case Alter(index, record) =>
      if w.cursor <= index < |w.app.timeline| then w.(app := w.app.(timeline := w.app.timeline[index := record])) else w
    case Deliver => Delivered(w)
    case Skip(mapped, orders) => Skipped(w, mapped, orders)
  }

  function Delivered(w: World): World {
    if w.cursor < |w.app.timeline| && Deliverable(w.app, w.cursor)
    then w.(app := w.app.Mapped(w.cursor), cursor := w.cursor + 1)
    else w
  }

  /** The guard answers from the state before the map handler's effect, which it does not depend on. */
  function Skipped(w: World, mapped: bool, orders: seq<StoredOrder>): World {
    if w.cursor >= |w.app.timeline| then w
    else
      var app := if mapped then w.app.Mapped(w.cursor) else w.app;
      match Decide(w.app.EvidenceAt(w.cursor, w.boundary, orders))
      case Hold(_) => w.(app := app)
      case Recoverable(watermark) => World(app, w.cursor + 1, Some(Installed(w.nextId, watermark)), w.nextId + 1)
  }

  function Run(w: World, events: seq<Event>): World
    decreases |events|
  {
    if events == [] then w else Run(Next(w, events[0]), events[1..])
  }

  function Initial(orders: map<OrderKey, StoredOrder>): World {
    World(AppData(StoreData(orders, [], 0), [], map[], ReadData(orders, 0)), 0, None, 0)
  }

  // --- the invariant ---------------------------------------------------------------------

  /** The timeline index a row was published at. */
  function IndexOf(row: OutboxEntry): nat {
    match row.position
    case Some(Fixture(index)) => index
    case _ => 0
  }

  /** Rows are numbered 1, 2, 3 … and lie on a timeline of that length in that order. */
  ghost predicate Numbered(outbox: seq<OutboxEntry>, length: nat) {
    && (forall i :: 0 <= i < |outbox| ==>
          outbox[i].seqNo == i + 1 && outbox[i].position == Some(Fixture(IndexOf(outbox[i]))) && IndexOf(outbox[i]) < length)
    && (forall i, j :: 0 <= i < j < |outbox| ==> IndexOf(outbox[i]) < IndexOf(outbox[j]))
  }

  /** `published` maps each published position to its row, and no other. */
  ghost predicate Indexed(outbox: seq<OutboxEntry>, published: map<nat, OutboxEntry>) {
    && (forall i :: 0 <= i < |outbox| ==> IndexOf(outbox[i]) in published && published[IndexOf(outbox[i])] == outbox[i])
    && (forall index :: index in published ==> published[index] in outbox && IndexOf(published[index]) == index)
  }

  /** Rows of one order carry its revisions in order, none above the stored one. */
  ghost predicate Ordered(outbox: seq<OutboxEntry>, orders: map<OrderKey, StoredOrder>) {
    && (forall i :: 0 <= i < |outbox| ==>
          outbox[i].Key() in orders && outbox[i].revision <= orders[outbox[i].Key()].revision)
    && (forall i, j :: 0 <= i < j < |outbox| && outbox[i].Key() == outbox[j].Key() ==> outbox[i].revision <= outbox[j].revision)
  }

  /** The watermark a context requires, 0 for none. */
  function ContextWatermark(context: Json): nat {
    if context.JObject? && "watermark" in context.members && context.members["watermark"].JNumber?
       && context.members["watermark"].number >= 0.0
    then context.members["watermark"].number.Floor else 0
  }

  /** The watermark the boundary in force requires. */
  function Required(w: World): nat {
    if w.boundary.None? then 0 else ContextWatermark(w.boundary.value.context)
  }

  /** The row's change, or a later one of its order, is what snapshots read. */
  predicate Reached(read: ReadData, row: OutboxEntry) {
    read.RevisionOf(row.Key()) >= row.revision
  }

  /** Row `i` was passed over for row `j`: a later row of its order that the boundary requires. */
  predicate SupersededBy(outbox: seq<OutboxEntry>, required: nat, i: nat, j: nat) {
    i < j < |outbox| && outbox[j].Key() == outbox[i].Key() && outbox[j].seqNo <= required
  }

  ghost predicate Accounted(outbox: seq<OutboxEntry>, read: ReadData, required: nat, i: nat)
    requires i < |outbox|
  {
    Reached(read, outbox[i]) || exists j :: SupersededBy(outbox, required, i, j)
  }

  ghost predicate RowsAccounted(outbox: seq<OutboxEntry>, read: ReadData, required: nat, cursor: nat) {
    forall i :: 0 <= i < |outbox| && IndexOf(outbox[i]) < cursor ==> Accounted(outbox, read, required, i)
  }

  /** The read model's watermark is 0, a row the gateway moved past, or the mapped row at the cursor. */
  ghost predicate WatermarkRead(outbox: seq<OutboxEntry>, read: ReadData, cursor: nat) {
    && read.watermark <= |outbox|
    && (read.watermark > 0 ==>
          var last := outbox[read.watermark - 1];
          IndexOf(last) < cursor || (IndexOf(last) == cursor && Reached(read, last)))
  }

  ghost predicate BoundarySound(w: World) {
    w.boundary.Some? ==>
      && w.boundary.value.context == ContextFor(Required(w))
      && Required(w) <= w.app.store.watermark
      && w.boundary.value.id < w.nextId
  }

  ghost predicate StoreSound(app: AppData) {
    && app.store.watermark == |app.store.outbox|
    && Filed(app.store.orders)
    && Numbered(app.store.outbox, |app.timeline|)
    && Indexed(app.store.outbox, app.published)
    && Ordered(app.store.outbox, app.store.orders)
    && app.readModel.orders.Keys == app.store.orders.Keys
  }

  ghost predicate Inv(w: World) {
    && StoreSound(w.app)
    && BoundarySound(w)
    && w.cursor <= |w.app.timeline|
    && WatermarkRead(w.app.store.outbox, w.app.readModel, w.cursor)
    && RowsAccounted(w.app.store.outbox, w.app.readModel, Required(w), w.cursor)
  }

  lemma InitialInv(orders: map<OrderKey, StoredOrder>)
    requires Filed(orders)
    ensures Inv(Initial(orders))
  {
  }

  // --- each step keeps it ------------------------------------------------------------------

  /** A row stays accounted for as rows are added, the boundary rises and the read model moves on. */
  lemma AccountedStays(outbox: seq<OutboxEntry>, read: ReadData, required: nat, i: nat, outbox': seq<OutboxEntry>, read': ReadData, required': nat)
    requires i < |outbox| && Accounted(outbox, read, required, i)
    requires outbox <= outbox' && required <= required'
    requires forall key :: read'.RevisionOf(key) >= read.RevisionOf(key)
    ensures Accounted(outbox', read', required', i)
  {
    if !Reached(read, outbox[i]) {
      var j :| SupersededBy(outbox, required, i, j);
      assert SupersededBy(outbox', required', i, j);
    }
  }

  lemma RowsAccountedStay(outbox: seq<OutboxEntry>, read: ReadData, required: nat, cursor: nat, outbox': seq<OutboxEntry>, read': ReadData, required': nat)
    requires RowsAccounted(outbox, read, required, cursor)
    requires outbox <= outbox' && required <= required'
    requires forall key :: read'.RevisionOf(key) >= read.RevisionOf(key)
    requires forall i :: |outbox| <= i < |outbox'| ==> IndexOf(outbox'[i]) >= cursor
    ensures RowsAccounted(outbox', read', required', cursor)
  {
    forall i | 0 <= i < |outbox'| && IndexOf(outbox'[i]) < cursor
      ensures Accounted(outbox', read', required', i)
    {
      assert outbox'[i] == outbox[i];
      AccountedStays(outbox, read, required, i, outbox', read', required');
    }
  }

  /** Publishing an order as a new row leaves every earlier row where it was. */
  lemma PublishShape(app: AppData, store: StoreData, order: StoredOrder)
    requires StoreSound(app)
    requires store == app.store.(orders := store.orders).Append(order)
    requires KeyOf(order) in store.orders
    ensures var position := Fixture(|app.timeline|);
      var row := app.store.RowFor(order).(position := Some(position));
      var after := app.(store := store).Published(app.store.RowFor(order));
      && row.seqNo == |app.store.outbox| + 1
      && after.store == StoreData(store.orders, app.store.outbox + [row], |app.store.outbox| + 1)
      && after.published == app.published[|app.timeline| := row]
      && |after.timeline| == |app.timeline| + 1
      && after.readModel == app.readModel
  {
    var n := |app.store.outbox|;
    var row := app.store.RowFor(order);
    assert row.seqNo == n + 1;
    var rows := app.store.outbox + [row];
    MarkFirstAt(rows, n, Fixture(|app.timeline|));
  }

  lemma RowAdded(outbox: seq<OutboxEntry>, length: nat, published: map<nat, OutboxEntry>, row: OutboxEntry)
    requires Numbered(outbox, length) && Indexed(outbox, published)
    requires row.seqNo == |outbox| + 1 && row.position == Some(Fixture(length))
    ensures Numbered(outbox + [row], length + 1)
    ensures Indexed(outbox + [row], published[length := row])
  {
    var rows, published' := outbox + [row], published[length := row];
    forall index | index in published'
      ensures published'[index] in rows && IndexOf(published'[index]) == index
    {
      assert rows[|outbox|] == row;
    }
  }

  /** A row at the revision the order now has keeps each order's rows in order. */
  lemma RowOrdered(outbox: seq<OutboxEntry>, orders: map<OrderKey, StoredOrder>, order: StoredOrder, row: OutboxEntry)
    requires Ordered(outbox, orders)
    requires KeyOf(order) in orders && orders[KeyOf(order)].revision <= order.revision
    requires row.Key() == KeyOf(order) && row.revision == order.revision
    ensures Ordered(outbox + [row], orders[KeyOf(order) := order])
  {
  }

  /** A new row of an order, at the revision now stored, keeps the invariant. */
  lemma PublishKeeps(w: World, store: StoreData, order: StoredOrder)
    requires Inv(w)
    requires store == w.app.store.(orders := store.orders).Append(order)
    requires KeyOf(order) in w.app.store.orders
    requires store.orders == w.app.store.orders[KeyOf(order) := order]
    requires order.revision >= w.app.store.orders[KeyOf(order)].revision
    ensures Inv(w.(app := w.app.(store := store).Published(w.app.store.RowFor(order))))
  {
    PublishShape(w.app, store, order);
    var outbox := w.app.store.outbox;
    var row := w.app.store.RowFor(order).(position := Some(Fixture(|w.app.timeline|)));
    var after := w.app.(store := store).Published(w.app.store.RowFor(order));
    assert after.store.outbox == outbox + [row];
    assert StoreSound(after) by {
      RowAdded(outbox, |w.app.timeline|, w.app.published, row);
      RowOrdered(outbox, w.app.store.orders, order, row);
    }
    assert RowsAccounted(outbox + [row], w.app.readModel, Required(w), w.cursor) by {
      RowsAccountedStay(outbox, w.app.readModel, Required(w), w.cursor, outbox + [row], w.app.readModel, Required(w));
    }
    assert WatermarkRead(outbox + [row], w.app.readModel, w.cursor);
    assert Required(w.(app := after)) == Required(w);
  }

  lemma AdvanceKeeps(w: World, key: OrderKey, at: string)
    requires Inv(w)
    ensures Inv(w.(app := w.app.Advanced(key, at)))
  {
    if key in w.app.store.orders {
      var order := w.app.store.orders[key];
      var next := NextState(order, at);
      if next.Some? {
        PublishKeeps(w, w.app.store.Committed(next.value), next.value);
      }
    }
  }

  lemma RepublishKeeps(w: World, key: OrderKey)
    requires Inv(w)
    ensures Inv(w.(app := w.app.Republished(key)))
  {
    if key in w.app.store.orders {
      var order := w.app.store.orders[key];
      assert w.app.store.orders == w.app.store.orders[key := order];
      PublishKeeps(w, w.app.store.Append(order), order);
    }
  }

  /** Applying an event lowers nothing, and moves the watermark only to the row the event publishes. */
  lemma AppliedShape(read: ReadData, event: OrderEvent, row: Option<OutboxEntry>)
    ensures var after := read.Applied(event, row);
      && after.orders.Keys == read.orders.Keys
      && (forall key :: after.RevisionOf(key) >= read.RevisionOf(key))
      && (after.watermark == read.watermark
          || (row.Some? && after.watermark == row.value.seqNo && Publishes(event, row.value) && IsOrderState(event.order)))
      && (row.Some? && Publishes(event, row.value) && IsOrderState(event.order) && row.value.Key() in read.orders ==>
            Reached(after, row.value))
  {
  }

  /** Mapping the record at the cursor, whether or not it is then delivered, keeps the invariant. */
  lemma MapKeeps(w: World)
    requires Inv(w)
    requires w.cursor < |w.app.timeline|
    ensures Inv(w.(app := w.app.Mapped(w.cursor)))
  {
    var record := w.app.timeline[w.cursor];
    if record.event.Some? {
      var event, row := record.event.value, w.app.RowAt(w.cursor);
      var outbox, read := w.app.store.outbox, w.app.readModel;
      var read' := read.Applied(event, row);
      AppliedShape(read, event, row);
      assert RowsAccounted(outbox, read', Required(w), w.cursor) by {
        RowsAccountedStay(outbox, read, Required(w), w.cursor, outbox, read', Required(w));
      }
      assert WatermarkRead(outbox, read', w.cursor) by {
        if row.Some? {
          RowAtCursor(w);
        }
      }
      var w' := w.(app := w.app.Mapped(w.cursor));
      assert w'.app == w.app.(readModel := read');
      assert Required(w') == Required(w);
    }
  }

  lemma RowAtCursor(w: World)
    requires Inv(w) && w.app.RowAt(w.cursor).Some?
    ensures var row := w.app.RowAt(w.cursor).value;
      && IndexOf(row) == w.cursor
      && 1 <= row.seqNo <= |w.app.store.outbox|
      && w.app.store.outbox[row.seqNo - 1] == row
      && row.Key() in w.app.readModel.orders
  {
    var row := w.app.RowAt(w.cursor).value;
    var i :| 0 <= i < |w.app.store.outbox| && w.app.store.outbox[i] == row;
  }

  /** Moving past the record at the cursor only asks that its row, if it has one, is accounted for. */
  lemma PassKeeps(w: World, w': World)
    requires Inv(w)
    requires w.cursor < |w.app.timeline|
    requires w'.app == w.app && w'.cursor == w.cursor + 1
    requires BoundarySound(w') && Required(w') >= Required(w)
    requires forall i :: 0 <= i < |w.app.store.outbox| && IndexOf(w.app.store.outbox[i]) == w.cursor ==>
      Accounted(w.app.store.outbox, w.app.readModel, Required(w'), i)
    ensures Inv(w')
  {
    var outbox, read := w.app.store.outbox, w.app.readModel;
    RowsAccountedStay(outbox, read, Required(w), w.cursor, outbox, read, Required(w'));
  }

  /** The row of the record delivered reaches the read model. */
  lemma DeliveredRow(w: World, i: nat)
    requires Inv(w) && w.cursor < |w.app.timeline| && Deliverable(w.app, w.cursor)
    requires i < |w.app.store.outbox| && IndexOf(w.app.store.outbox[i]) == w.cursor
    ensures Accounted(w.app.store.outbox, w.app.Mapped(w.cursor).readModel, Required(w), i)
  {
    assert w.app.RowAt(w.cursor) == Some(w.app.store.outbox[i]);
    AppliedShape(w.app.readModel, w.app.timeline[w.cursor].event.value, w.app.RowAt(w.cursor));
    RowAtCursor(w);
  }

  /** Every row whose record is the one delivered is accounted for once that record is mapped. */
  lemma DeliveredRows(w: World)
    requires Inv(w) && w.cursor < |w.app.timeline| && Deliverable(w.app, w.cursor)
    ensures var m := w.(app := w.app.Mapped(w.cursor));
      && m.app.store == w.app.store && m.app.timeline == w.app.timeline
      && forall i :: 0 <= i < |m.app.store.outbox| && IndexOf(m.app.store.outbox[i]) == w.cursor ==>
           Accounted(m.app.store.outbox, m.app.readModel, Required(m), i)
  {
    var m := w.(app := w.app.Mapped(w.cursor));
    assert m.app.store == w.app.store && m.app.timeline == w.app.timeline && Required(m) == Required(w);
    forall i | 0 <= i < |m.app.store.outbox| && IndexOf(m.app.store.outbox[i]) == w.cursor
      ensures Accounted(m.app.store.outbox, m.app.readModel, Required(m), i)
    {
      DeliveredRow(w, i);
    }
  }

  lemma PassOn(w: World)
    requires Inv(w) && w.cursor < |w.app.timeline|
    requires forall i :: 0 <= i < |w.app.store.outbox| && IndexOf(w.app.store.outbox[i]) == w.cursor ==>
      Accounted(w.app.store.outbox, w.app.readModel, Required(w), i)
    ensures Inv(w.(cursor := w.cursor + 1))
  {
    PassKeeps(w, w.(cursor := w.cursor + 1));
  }

  lemma DeliverKeeps(w: World)
    requires Inv(w)
    ensures Inv(Delivered(w))
  {
    if w.cursor < |w.app.timeline| && Deliverable(w.app, w.cursor) {
      var m := w.(app := w.app.Mapped(w.cursor));
      assert Delivered(w) == m.(cursor := m.cursor + 1);
      assert Inv(m.(cursor := m.cursor + 1)) by {
        MapKeeps(w);
        DeliveredRows(w);
        PassOn(m);
      }
    }
  }

  /** What an approval requires is at least what the last one did, and is a row the store has. */
  lemma SkipRaises(w: World, e: RecoveryEvidence)
    requires StoreSound(w.app) && BoundarySound(w)
    requires e.outbox == w.app.store.outbox && e.prior == w.boundary
    requires Decide(e).Recoverable?
    ensures Required(w) <= Decide(e).watermark <= w.app.store.watermark
  {
    ApprovalCovers(e);
    if w.boundary.Some? {
      ContextRoundTrip(Required(w));
    }
  }

  lemma RequiredInstalled(watermark: nat)
    ensures ContextWatermark(ContextFor(watermark)) == watermark
  {
    assert ContextFor(watermark).members["watermark"].number.Floor == watermark;
  }

  /** The approval names a later row of the failed row's order, at or below the watermark it requires. */
  lemma SkippedRowAccounted(outbox: seq<OutboxEntry>, length: nat, e: RecoveryEvidence, i: nat)
    requires Numbered(outbox, length) && e.outbox == outbox
    requires i < |outbox| && e.position == Fixture(IndexOf(outbox[i]))
    requires Decide(e).Recoverable?
    ensures exists j :: SupersededBy(outbox, Decide(e).watermark, i, j)
  {
    var failed := outbox[i];
    assert failed in e.outbox && At(failed, e.position);
    var watermark := Decide(e).watermark;
    assert CoveredBy(e, failed.Key(), watermark) by { ApprovalCovers(e); }
    var r :| r in e.outbox && RepublishedAfter(r, failed.Key(), e.position) && r.seqNo <= watermark;
    var j :| 0 <= j < |outbox| && outbox[j] == r;
    assert IndexOf(outbox[j]) > IndexOf(outbox[i]);
    assert j > i;
    assert SupersededBy(outbox, watermark, i, j);
  }

  lemma SkipKeeps(w: World, e: RecoveryEvidence)
    requires Inv(w)
    requires w.cursor < |w.app.timeline|
    requires e.outbox == w.app.store.outbox && e.prior == w.boundary && e.position == Fixture(w.cursor)
    requires Decide(e).Recoverable?
    ensures Inv(World(w.app, w.cursor + 1, Some(Installed(w.nextId, Decide(e).watermark)), w.nextId + 1))
  {
    var w' := World(w.app, w.cursor + 1, Some(Installed(w.nextId, Decide(e).watermark)), w.nextId + 1);
    RequiredInstalled(Decide(e).watermark);
    SkipRaises(w, e);
    forall i | 0 <= i < |w.app.store.outbox| && IndexOf(w.app.store.outbox[i]) == w.cursor
      ensures Accounted(w.app.store.outbox, w.app.readModel, Required(w'), i)
    {
      SkippedRowAccounted(w.app.store.outbox, |w.app.timeline|, e, i);
    }
    PassKeeps(w, w');
  }

  /** The record's map handler may have run first: the guard is shown nothing of the read model. */
  lemma ApprovedKeeps(before: World, e: RecoveryEvidence, w': World)
    requires Inv(before) && before.cursor < |before.app.timeline|
    requires e.outbox == before.app.store.outbox && e.prior == before.boundary && e.position == Fixture(before.cursor)
    requires Decide(e).Recoverable?
    requires w' == World(before.app, before.cursor + 1, Some(Installed(before.nextId, Decide(e).watermark)), before.nextId + 1)
    ensures Inv(w') && Required(before) <= Required(w')
  {
    SkipKeeps(before, e);
    SkipRaises(before, e);
    RequiredInstalled(Decide(e).watermark);
  }

  lemma SkipStepKeeps(w: World, mapped: bool, orders: seq<StoredOrder>)
    requires Inv(w)
    ensures Inv(Skipped(w, mapped, orders))
    ensures Required(w) <= Required(Skipped(w, mapped, orders))
  {
    if w.cursor >= |w.app.timeline| {
      return;
    }
    var before := w;
    if mapped {
      MapKeeps(w);
      before := w.(app := w.app.Mapped(w.cursor));
    }
    var e := w.app.EvidenceAt(w.cursor, w.boundary, orders);
    if Decide(e).Recoverable? {
      ApprovedKeeps(before, e, Skipped(w, mapped, orders));
    } else {
      assert Skipped(w, mapped, orders) == before;
    }
  }

  /** Records beyond the cursor may change, or be added by others: the invariant speaks of none of them. */
  lemma TimelineKeeps(w: World, timeline: seq<FixtureRecord>)
    requires Inv(w)
    requires |timeline| >= |w.app.timeline|
    ensures Inv(w.(app := w.app.(timeline := timeline)))
  {
    var w' := w.(app := w.app.(timeline := timeline));
    assert Required(w') == Required(w);
    assert Numbered(w.app.store.outbox, |timeline|);
  }

  lemma AlterKeeps(w: World, index: nat, record: FixtureRecord)
    requires Inv(w)
    ensures Inv(Next(w, Alter(index, record)))
  {
    if w.cursor <= index < |w.app.timeline| {
      TimelineKeeps(w, w.app.timeline[index := record]);
    }
  }

  /** One step keeps the invariant. */
  lemma StepKeeps(w: World, event: Event)
    requires Inv(w)
    ensures Inv(Next(w, event))
  {
    match event
    case Advance(key, at) => AdvanceKeeps(w, key, at);
    case Republish(key) => RepublishKeeps(w, key);
    case Inject(record) => TimelineKeeps(w, w.app.timeline + [record]);
    case Alter(index, record) => AlterKeeps(w, index, record);
    case Deliver => DeliverKeeps(w);
    case Skip(mapped, orders) => SkipStepKeeps(w, mapped, orders);
  }

  lemma BoundaryStays(w: World, event: Event)
    requires !event.Skip?
    ensures Next(w, event).boundary == w.boundary && Next(w, event).nextId == w.nextId
  {
  }

  /** What the boundary in force requires never goes down: only a skip changes the boundary, and it carries it forward. */
  lemma RequiredRises(w: World, event: Event)
    requires Inv(w)
    ensures Required(w) <= Required(Next(w, event))
  {
    match event
    case Skip(mapped, orders) => SkipStepKeeps(w, mapped, orders);
    case _ => BoundaryStays(w, event);
  }

  // --- the theorems --------------------------------------------------------------------------

  /** Every state a run reaches keeps the invariant; the required watermark never goes down and never passes the store's. */
  lemma {:induction false} RunKeeps(w: World, events: seq<Event>)
    requires Inv(w)
    ensures Inv(Run(w, events))
    ensures Required(w) <= Required(Run(w, events))
    decreases |events|
  {
    if events != [] {
      StepKeeps(w, events[0]);
      RequiredRises(w, events[0]);
      RunKeeps(Next(w, events[0]), events[1..]);
    }
  }

  /**
   * The induction over skips. A row at or below the watermark was read; if it was skipped, the guard
   * found a later row of its order at or below the required watermark, which may itself have been
   * skipped, and so on up to a row that reached the read model.
   */
  lemma {:induction false} ReadCovers(w: World, i: nat)
    requires Inv(w)
    requires i < w.app.readModel.watermark
    requires Required(w) <= w.app.readModel.watermark
    ensures Reached(w.app.readModel, w.app.store.outbox[i])
    decreases w.app.readModel.watermark - i
  {
    var outbox, read := w.app.store.outbox, w.app.readModel;
    var last := read.watermark - 1;
    if i < last || IndexOf(outbox[last]) < w.cursor {
      assert i < last ==> IndexOf(outbox[i]) < IndexOf(outbox[last]);
      assert Accounted(outbox, read, Required(w), i);
      if !Reached(read, outbox[i]) {
        var j :| SupersededBy(outbox, Required(w), i, j);
        ReadCovers(w, j);
      }
    }
  }

  /** The store keeps its rows: a run only appends. */
  lemma {:induction false} RunAppends(w: World, events: seq<Event>)
    requires Inv(w)
    ensures w.app.store.outbox <= Run(w, events).app.store.outbox
    ensures Run(w, events).nextId >= w.nextId
    ensures Run(w, events).boundary == w.boundary || (Run(w, events).boundary.Some? && Run(w, events).boundary.value.id >= w.nextId)
    decreases |events|
  {
    if events != [] {
      var next := Next(w, events[0]);
      StepKeeps(w, events[0]);
      StepAppends(w, events[0]);
      RunAppends(next, events[1..]);
    }
  }

  lemma StepAppends(w: World, event: Event)
    requires Inv(w)
    ensures w.app.store.outbox <= Next(w, event).app.store.outbox
    ensures Next(w, event).nextId >= w.nextId
    ensures Next(w, event).boundary == w.boundary || (Next(w, event).boundary.Some? && Next(w, event).boundary.value.id == w.nextId < Next(w, event).nextId)
  {
    if !event.Skip? {
      BoundaryStays(w, event);
    }
    match event
    case Advance(key, at) => AdvanceAppends(w, key, at);
    case Republish(key) => RepublishAppends(w, key);
    case _ => OtherAppends(w, event);
  }

  lemma RepublishAppends(w: World, key: OrderKey)
    requires Inv(w)
    ensures w.app.store.outbox <= Next(w, Republish(key)).app.store.outbox
  {
    if key in w.app.store.orders {
      PublishShape(w.app, w.app.store.Append(w.app.store.orders[key]), w.app.store.orders[key]);
    }
  }

  lemma OtherAppends(w: World, event: Event)
    requires !event.Advance? && !event.Republish?
    ensures Next(w, event).app.store == w.app.store
    ensures event.Skip? && Next(w, event).boundary != w.boundary ==>
              Next(w, event).boundary.Some? && Next(w, event).boundary.value.id == w.nextId < Next(w, event).nextId
    ensures Next(w, event).nextId >= w.nextId
  {
  }

  lemma AdvanceAppends(w: World, key: OrderKey, at: string)
    requires Inv(w)
    ensures w.app.store.outbox <= w.app.Advanced(key, at).store.outbox
  {
    if key in w.app.store.orders && NextState(w.app.store.orders[key], at).Some? {
      var next := NextState(w.app.store.orders[key], at).value;
      PublishShape(w.app, w.app.store.Committed(next), next);
    }
  }

  /**
   * A snapshot is asked for under the boundary in force, reads, and returns later, when other
   * events may have run. If the boundary it acknowledges is then the one in force, the revision it
   * returns is at least that of every row of the order up to the watermark it read at.
   */
  lemma SnapshotSound(orders: map<OrderKey, StoredOrder>, before: seq<Event>, during: seq<Event>, key: OrderKey, row: OutboxEntry)
    requires Filed(orders)
    requires var asked := Run(Initial(orders), before);
      var returned := Run(asked, during);
      var snapshot := SnapshotOf(asked.app, key, asked.boundary);
      && snapshot.Some?
      && (returned.boundary.Some? ==> snapshot.value.acknowledged == Some(returned.boundary.value.id))
      && row in returned.app.store.outbox && row.Key() == key
      && row.seqNo <= asked.app.readModel.watermark
    ensures SnapshotOf(Run(Initial(orders), before).app, key, Run(Initial(orders), before).boundary).value.revision >= row.revision
  {
    InitialInv(orders);
    RunKeeps(Initial(orders), before);
    var asked := Run(Initial(orders), before);
    RunKeeps(asked, during);
    RunAppends(asked, during);
    AcknowledgedSound(asked, Run(asked, during), key, row);
  }

  lemma AcknowledgedSound(asked: World, returned: World, key: OrderKey, row: OutboxEntry)
    requires Inv(asked) && Inv(returned)
    requires asked.app.store.outbox <= returned.app.store.outbox
    requires returned.boundary == asked.boundary || (returned.boundary.Some? && returned.boundary.value.id >= asked.nextId)
    requires var snapshot := SnapshotOf(asked.app, key, asked.boundary);
      && snapshot.Some?
      && (returned.boundary.Some? ==> snapshot.value.acknowledged == Some(returned.boundary.value.id))
    requires row in returned.app.store.outbox && row.Key() == key && row.seqNo <= asked.app.readModel.watermark
    ensures SnapshotOf(asked.app, key, asked.boundary).value.revision >= row.revision
  {
    var i :| 0 <= i < |returned.app.store.outbox| && returned.app.store.outbox[i] == row;
    assert row.seqNo == i + 1;
    assert asked.app.store.outbox[i] == row;
    if asked.boundary.Some? {
      ContextRoundTrip(Required(asked));
    }
    ReadCovers(asked, i);
  }

  /** Boundaries in force at two times of a run: the later one requires no less, and both are within the store. */
  lemma BoundariesRise(orders: map<OrderKey, StoredOrder>, before: seq<Event>, during: seq<Event>)
    requires Filed(orders)
    ensures var earlier := Run(Initial(orders), before);
      var later := Run(earlier, during);
      Required(earlier) <= Required(later) <= later.app.store.watermark
  {
    InitialInv(orders);
    RunKeeps(Initial(orders), before);
    RunKeeps(Run(Initial(orders), before), during);
  }
}
