/** The commerce tables and what each transaction does to them. Every function here is one
    withTx body (modules/commerce/repository.go:33-51): it yields the committed tables, or
    the tables it started from when the body fails and the transaction rolls back. */
module Tables {
  import opened Base
  import opened Records
  import opened Orders
  import opened Inventory
  import Catalogue

  /** Append-only tables are grouped by the row they belong to. bySession and byNumber are
      the unique indexes of orders on checkout_session_id and on (store_id, order_number). */
  datatype Tables = Tables(
    catalog: Catalog,
    snapshots: map<Id, Snapshot>,
    reservations: map<Id, Reservation>,
    movements: map<Id, seq<Movement>>,
    orders: map<Id, Order>,
    timeline: map<Id, seq<TimelineRow>>,
    events: map<Id, seq<OrderEvent>>,
    carts: map<Id, Cart>,
    sessions: map<Id, Session>,
    sequences: map<Id, nat>,
    revisions: map<Id, nat>,
    bySession: map<Id, Id>,
    byNumber: map<(Id, nat), Id>)

  function RowsAt<T>(table: map<Id, seq<T>>, key: Id): seq<T> {
    if key in table then table[key] else []
  }

  function Append<T>(table: map<Id, seq<T>>, key: Id, row: T): map<Id, seq<T>> {
    table[key := RowsAt(table, key) + [row]]
  }

  // ---- Settlement: the stock half of confirm, cancel, expire and restock.

  function ItemReservations(items: seq<OrderItem>): set<Id> {
    set i | 0 <= i < |items| :: items[i].reservation
  }

  function LockedRows(res: Reservations, ids: seq<Id>): seq<Reservation>
    requires forall i :: 0 <= i < |ids| ==> ids[i] in res
  {
    seq(|ids|, i requires 0 <= i < |ids| => res[ids[i]])
  }

  /** Reservations found for the order, ordered by id. */
  function FoundRows(res: Reservations, o: Order): seq<Reservation> {
    LockedRows(res, SortedIds(ItemReservations(o.items) * res.Keys))
  }

  function DeltasOf(rows: seq<Reservation>): seq<Delta> {
    var ids := SortedIds(SnapshotsOf(rows));
    seq(|ids|, i requires 0 <= i < |ids| => Delta(ids[i], QuantityIn(rows, ids[i])))
  }

  /** Why the step fails closed, if it does, given the reservation rows it locked. */
  function RowsFault(
    d: Disposition, snaps: map<Id, Snapshot>, rows: seq<Reservation>, expected: nat, deadline: Time, now: Time): Option<Error>
  {
    if |rows| != expected then Some(InternalError)
    else if FirstFault(d, rows, deadline, now).Some? then FirstFault(d, rows, deadline, now)
    else FirstMisfit(d, snaps, DeltasOf(rows))
  }

  function SettleFault(snaps: map<Id, Snapshot>, res: Reservations, o: Order, d: Disposition,
      now: Time): Option<Error> {
    if NO_ID in ItemReservations(o.items) then Some(InvalidInput)
    else RowsFault(d, snaps, FoundRows(res, o), |o.items|, o.deadline, now)
  }

  ghost function SettledSnapshots(d: Disposition, snaps: map<Id, Snapshot>, res: Reservations, ids: set<Id>,
      done: set<Id>)
    : map<Id, Snapshot>
  {
    snaps + map s | s in done && s in snaps :: SettledRow(d, snaps[s], QuantityOn(res, ids, s))
  }

  ghost function SettledMovements(
    d: Disposition, log: map<Id, seq<Movement>>, snaps: map<Id, Snapshot>, res: Reservations, ids: set<Id>, done: set<Id>)
    : map<Id, seq<Movement>>
  {
    log + map s | s in done && s in snaps ::
      RowsAt(log, s) + [MovementFor(d, QuantityOn(res, ids, s), SettledRow(d, snaps[s], QuantityOn(res, ids, s)))]
  }

  function Marked(res: Reservations, ids: set<Id>, status: ReservationStatus): Reservations {
    res + map k | k in ids && k in res :: res[k].(status := status)
  }

  ghost function Settled(t: Tables, d: Disposition, ids: set<Id>): Tables {
    var touched := Touched(t.reservations, ids);
    t.(snapshots := SettledSnapshots(d, t.snapshots, t.reservations, ids, touched),
       movements := SettledMovements(d, t.movements, t.snapshots, t.reservations, ids, touched),
       reservations := Marked(t.reservations, ids, StatusAfter(d)))
  }

  // ---- Transition: order row, timeline row and outbox event in one write.

  function MovedOrder(o: Order, to: OrderStatus, reason: Option<string>, now: Time): Order {
    o.(status := to, reason := reason, version := o.version + 1, updatedAt := now)
  }

  function Transitioned(t: Tables, id: Id, to: OrderStatus, actor: Authority, reason: Option<string>, now: Time): Tables
    requires id in t.orders
  {
    var o := t.orders[id];
    t.(orders := t.orders[id := MovedOrder(o, to, reason, now)],
       timeline := Append(t.timeline, id, TimelineRow(Some(o.status), to, actor, now)),
       events := Append(t.events, id, OrderEvent(OrderStatusChanged, o.version + 1, to, now)))
  }

  type Outcome = (Tables, Result<Order>)

  ghost function Settle(
    t: Tables, id: Id, d: Disposition, to: OrderStatus, actor: Authority, reason: Option<string>, now: Time): Outcome
    requires id in t.orders
  {
    var o := t.orders[id];
    var fault := SettleFault(t.snapshots, t.reservations, o, d, now);
    if fault.Some? then (t, Err(fault.value))
    else (Transitioned(Settled(t, d, ItemReservations(o.items)), id, to, actor, reason, now),
          Ok(MovedOrder(o, to, reason, now)))
  }

  // ---- The order commands.

  predicate OrderIn(t: Tables, store: Id, id: Id) {
    id in t.orders && t.orders[id].store == store
  }

  ghost function ConfirmOrder(t: Tables, store: Id, id: Id, now: Time): Outcome {
    if store == NO_ID || id == NO_ID then (t, Err(InvalidInput))
    else if !OrderIn(t, store, id) then (t, Err(NotFound))
    else
      var o := t.orders[id];
      if o.status == Confirmed then (t, Ok(o))
      else if o.status != Pending || now >= o.deadline then (t, Err(InvalidTransition))
      else if o.items == [] then (t, Err(InvalidInput))
      else Settle(t, id, Consume, Confirmed, Seller, o.reason, now)
  }

  ghost function CancelPendingOrder(
    t: Tables, store: Id, id: Id, authority: Authority, reason: Option<string>, now: Time): Outcome
  {
    if store == NO_ID || id == NO_ID then (t, Err(InvalidInput))
    else if authority != Customer && authority != Seller then (t, Err(InvalidTransition))
    else if !OrderIn(t, store, id) then (t, Err(NotFound))
    else
      var o := t.orders[id];
      if o.status == Cancelled then (t, Ok(o))
      else if o.status != Pending then (t, Err(InvalidTransition))
      else Settle(t, id, Release, Cancelled, authority, reason, now)
  }

  ghost function CancelConfirmedOrder(
    t: Tables, store: Id, id: Id, authority: Authority, reason: Option<string>, now: Time): Outcome
  {
    if store == NO_ID || id == NO_ID then (t, Err(InvalidInput))
    else if authority != Seller then (t, Err(InvalidTransition))
    else if !OrderIn(t, store, id) then (t, Err(NotFound))
    else
      var o := t.orders[id];
      if o.status == Cancelled then (t, Ok(o))
      else if o.status != Confirmed && o.status != Processing then (t, Err(InvalidTransition))
      else Settle(t, id, Restock, Cancelled, authority, reason, now)
  }

  const TIMEOUT_REASON := "confirmation_timeout"

  /** A missing order is a safe no-op for the scheduler; so is one that is no longer
      pending or not yet due. None stands for the empty order of the first case. */
  ghost function ExpirePendingOrder(t: Tables, id: Id, now: Time): (Tables, Result<Option<Order>>) {
    if id == NO_ID then (t, Err(InvalidInput))
    else if id !in t.orders then (t, Ok(None))
    else
      var o := t.orders[id];
      if o.status != Pending || now < o.deadline then (t, Ok(Some(o)))
      else
        var (t', r) := Settle(t, id, Expire, Cancelled, Scheduler, Some(TIMEOUT_REASON), now);
        (t', if r.Ok? then Ok(Some(r.value)) else Err(r.error))
  }

  function AdvanceOrderStatus(
    t: Tables, store: Id, id: Id, target: OrderStatus, authority: Authority, reason: Option<string>, now: Time): Outcome
  {
    if store == NO_ID || id == NO_ID then (t, Err(InvalidInput))
    else if !OrderIn(t, store, id) then (t, Err(NotFound))
    else
      var o := t.orders[id];
      if o.status == target then (t, Ok(o))
      else if !NeutralAdvance(o.status, target, authority) then (t, Err(InvalidTransition))
      else
        var fault := ValidateOrderTransition(Some(o.status), authority, target, o.deadline, now);
        if fault.Some? then (t, Err(fault.value))
        else
          var why := if reason.Some? then reason else o.reason;
          (Transitioned(t, id, target, authority, why, now), Ok(MovedOrder(o, target, why, now)))
  }

  // ---- Stock writers outside checkout; all of them bump storefront revisions.

  function Bump(t: Tables, stores: set<Id>): Tables {
    t.(revisions := Catalogue.Bumped(t.revisions, stores))
  }

  /** UNIQUE (fulfillment_location_id, sku_id). */
  predicate PairTaken(snaps: map<Id, Snapshot>, location: Id, sku: Id) {
    exists k :: k in snaps && snaps[k].location == location && snaps[k].sku == sku
  }

  function CreateInventorySnapshot(t: Tables, id: Id, location: Id, sku: Id, onHand: int): (Tables, Result<Snapshot>) {
    if location == NO_ID || sku == NO_ID || onHand < 0 then (t, Err(InvalidInput))
    else if id in t.snapshots || PairTaken(t.snapshots, location, sku) then (t, Err(Conflict))
    else if location !in t.catalog.locations || sku !in t.catalog.skus then (t, Err(InvalidInput))
    else
      var s := Snapshot(location, sku, onHand, onHand, 0, 0);
      (Bump(t.(snapshots := t.snapshots[id := s]), Catalogue.StoresBySku(t.catalog, sku)), Ok(s))
  }

  function AdjustedRow(s: Snapshot, delta: int): Snapshot {
    s.(onHand := s.onHand + delta, version := s.version + 1)
  }

  function AdjustInventory(t: Tables, id: Id, delta: int, movementType: string): (Tables, Result<Snapshot>) {
    if id == NO_ID || Blank(movementType) || delta == 0 then (t, Err(InvalidInput))
    else if delta > 0 && id !in t.snapshots then (t, Err(Conflict))
    else if delta < 0 && (id !in t.snapshots || t.snapshots[id].onHand + delta < t.snapshots[id].reserved ||
                          t.snapshots[id].onHand + delta < 0) then (t, Err(InsufficientInventory))
    else
      var s := AdjustedRow(t.snapshots[id], delta);
      (Bump(t.(snapshots := t.snapshots[id := s],
               movements := Append(t.movements, id, Movement(Adjusted(movementType), delta, s.onHand, s.reserved))),
            Catalogue.StoresByInventorySnapshot(t.catalog, t.snapshots, id)), Ok(s))
  }

  function ReservedRow(s: Snapshot, q: int): Snapshot {
    s.(reserved := s.reserved + q, version := s.version + 1)
  }

  /** Standalone hold; it leaves no movement row. */
  function ReserveInventory(t: Tables, id: Id, q: int, token: Id, reservation: Id, expiresAt: Option<Time>)
    : (Tables, Result<Reservation>)
  {
    if id == NO_ID || token == NO_ID || q <= 0 then (t, Err(InvalidInput))
    else if id !in t.snapshots || t.snapshots[id].onHand - t.snapshots[id].reserved < q then (t, Err(InsufficientInventory))
    else if reservation in t.reservations then (t, Err(Conflict))
    else
      var r := Reservation(id, q, Held, expiresAt);
      (Bump(t.(snapshots := t.snapshots[id := ReservedRow(t.snapshots[id], q)],
               reservations := t.reservations[reservation := r]),
            Catalogue.StoresByInventorySnapshot(t.catalog, t.snapshots, id)), Ok(r))
  }
}
