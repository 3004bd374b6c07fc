/** What each order command leaves behind, row by row
    (modules/commerce/order_repository.go:487-1495). */
module Effects {
  import opened Base
  import opened Sums
  import opened Records
  import opened Orders
  import opened Inventory
  import opened Tables
  import opened Ledger
  import opened Histories
  import opened Settlements
  import opened Commands

  // ---- The order, its timeline and its events.

  /** The order moved to the status; of its other columns only reason, version and update
      time changed. One timeline row and one event say so. No other order changed. */
  ghost predicate Advanced(t: Tables, t': Tables, id: Id, to: OrderStatus, actor: Authority, reason: Option<string>, now: Time) {
    && id in t.orders
    && var o := t.orders[id];
    && t'.orders == t.orders[id := o.(status := to, reason := reason, version := o.version + 1, updatedAt := now)]
    && t'.timeline == t.timeline[id := RowsAt(t.timeline, id) + [TimelineRow(Some(o.status), to, actor, now)]]
    && t'.events == t.events[id := RowsAt(t.events, id) + [OrderEvent(OrderStatusChanged, o.version + 1, to, now)]]
    && t'.carts == t.carts && t'.sessions == t.sessions && t'.sequences == t.sequences && t'.catalog == t.catalog && t'.revisions == t.revisions
  }

  ghost predicate StockStands(t: Tables, t': Tables) {
    t'.snapshots == t.snapshots && t'.reservations == t.reservations && t'.movements == t.movements
  }

  // ---- Its stock.

  /** Reservation k belongs to the order. */
  ghost predicate Owned(o: Order, k: Id) {
    exists i :: 0 <= i < |o.items| && o.items[i].reservation == k
  }

  /** Units the order's reservations hold on snapshot s. */
  ghost function UnitsOn(t: Tables, id: Id, s: Id): int
    requires id in t.orders
  {
    Sum(set i | 0 <= i < |t.orders[id].items| :: t.orders[id].items[i].reservation,
        k => if k in t.reservations && t.reservations[k].snapshot == s then t.reservations[k].quantity else 0)
  }

  ghost predicate Touches(t: Tables, id: Id, s: Id)
    requires id in t.orders
  {
    exists k :: Owned(t.orders[id], k) && k in t.reservations && t.reservations[k].snapshot == s
  }

  /** The order's reservations, and no others, now have the status. */
  ghost predicate Restated(t: Tables, t': Tables, id: Id, status: ReservationStatus)
    requires id in t.orders
  {
    && t'.reservations.Keys == t.reservations.Keys
    && (forall k :: k in t.reservations ==>
          t'.reservations[k] == if Owned(t.orders[id], k) then t.reservations[k].(status := status) else t.reservations[k])
  }

  /** Every snapshot the order touches moved its counters by so many times the order's
      units on it and got one movement row of the kind, with the counters it left; no other
      snapshot changed. */
  ghost predicate Counted(t: Tables, t': Tables, id: Id, kind: MovementKind, onHand: int, reserved: int, s: Id)
    requires id in t.orders && s in t.snapshots
  {
    && s in t'.snapshots
    && if Touches(t, id, s) then
         && t'.snapshots[s] == t.snapshots[s].(onHand := t.snapshots[s].onHand + onHand * UnitsOn(t, id, s),
                                               reserved := t.snapshots[s].reserved + reserved * UnitsOn(t, id, s),
                                               version := t.snapshots[s].version + 1)
         && RowsAt(t'.movements, s) == RowsAt(t.movements, s) +
              [Movement(kind, onHand * UnitsOn(t, id, s), t'.snapshots[s].onHand, t'.snapshots[s].reserved)]
       else t'.snapshots[s] == t.snapshots[s] && RowsAt(t'.movements, s) == RowsAt(t.movements, s)
  }

  ghost predicate StockMoves(t: Tables, t': Tables, id: Id, status: ReservationStatus, kind: MovementKind, onHand: int, reserved: int)
    requires id in t.orders
  {
    Restated(t, t', id, status) && forall s :: s in t.snapshots ==> Counted(t, t', id, kind, onHand, reserved, s)
  }

  // ---- Settlements.

  lemma SettledRestates(t: Tables, id: Id, d: Disposition)
    requires id in t.orders
    ensures Restated(t, Settled(t, d, ItemReservations(t.orders[id].items)), id,
                     match d case Consume => Consumed case Release => Released case Expire => Expired case Restock => Consumed)
  {
    hide SettledSnapshots, SettledMovements, Touched;
    var o := t.orders[id];
    assert forall k :: k in ItemReservations(o.items) <==> Owned(o, k);
  }

  lemma UnitsAre(t: Tables, id: Id, s: Id)
    requires id in t.orders
    ensures UnitsOn(t, id, s) == QuantityOn(t.reservations, ItemReservations(t.orders[id].items), s)
    ensures Touches(t, id, s) <==> s in Touched(t.reservations, ItemReservations(t.orders[id].items))
  {
    var o := t.orders[id];
    assert forall k :: k in ItemReservations(o.items) <==> Owned(o, k);
    SumSame(ItemReservations(o.items), k => if k in t.reservations && t.reservations[k].snapshot == s then t.reservations[k].quantity else 0,
            Weight(t.reservations, s));
  }

  /** The row and the movement of one touched snapshot. */
  lemma SettledPair(d: Disposition, snap: Snapshot, q: int)
    ensures var row := SettledRow(d, snap, q);
            var m := MovementFor(d, q, row);
            match d
            case Consume => row == snap.(onHand := snap.onHand - q, reserved := snap.reserved - q, version := snap.version + 1) && m == Movement(ReservationConsumed, -q, row.onHand, row.reserved)
            case Release => row == snap.(reserved := snap.reserved - q, version := snap.version + 1) && m == Movement(ReservationReleased, 0, row.onHand, row.reserved)
            case Expire => row == snap.(reserved := snap.reserved - q, version := snap.version + 1) && m == Movement(ReservationExpired, 0, row.onHand, row.reserved)
            case Restock => row == snap.(onHand := snap.onHand + q, version := snap.version + 1) && m == Movement(CancellationRestock, q, row.onHand, row.reserved)
  {
  }

  lemma SettledAtOne(d: Disposition, snaps: SnapshotTable, log: MovementTable, res: Reservations, ids: set<Id>, s: Id)
    requires s in snaps
    ensures var done := Touched(res, ids);
            var after := SettledSnapshots(d, snaps, res, ids, done);
            var rows := SettledMovements(d, log, snaps, res, ids, done);
            var q := QuantityOn(res, ids, s);
            && s in after
            && (s in done ==> after[s] == SettledRow(d, snaps[s], q) && RowsAt(rows, s) == RowsAt(log, s) + [MovementFor(d, q, SettledRow(d, snaps[s], q))])
            && (s !in done ==> after[s] == snaps[s] && RowsAt(rows, s) == RowsAt(log, s))
  {
    hide QuantityOn, SettledRow, MovementFor, Touched;
  }

  lemma SettledIs(t: Tables, d: Disposition, ids: set<Id>)
    ensures var u := Settled(t, d, ids);
            && u.snapshots == SettledSnapshots(d, t.snapshots, t.reservations, ids, Touched(t.reservations, ids))
            && u.movements == SettledMovements(d, t.movements, t.snapshots, t.reservations, ids, Touched(t.reservations, ids))
            && u.orders == t.orders && u.timeline == t.timeline && u.events == t.events && u.carts == t.carts && u.sessions == t.sessions
            && u.sequences == t.sequences && u.catalog == t.catalog && u.revisions == t.revisions
  {
    hide SettledSnapshots, SettledMovements, Touched, Marked;
  }

  lemma SettledCounts(t: Tables, id: Id, d: Disposition, s: Id)
    requires id in t.orders && s in t.snapshots
    ensures var u := Settled(t, d, ItemReservations(t.orders[id].items));
            match d
            case Consume => Counted(t, u, id, ReservationConsumed, -1, -1, s)
            case Release => Counted(t, u, id, ReservationReleased, 0, -1, s)
            case Expire => Counted(t, u, id, ReservationExpired, 0, -1, s)
            case Restock => Counted(t, u, id, CancellationRestock, 1, 0, s)
  {
    hide Settled, SettledSnapshots, SettledMovements, QuantityOn, UnitsOn, Touches, Touched, ItemReservations, SettledRow, MovementFor, RowsAt;
    var ids := ItemReservations(t.orders[id].items);
    UnitsAre(t, id, s);
    SettledIs(t, d, ids);
    SettledAtOne(d, t.snapshots, t.movements, t.reservations, ids, s);
    SettledPair(d, t.snapshots[s], QuantityOn(t.reservations, ids, s));
  }

  /** Stock moved as the disposition says, the order as the transition does. */
  ghost predicate Settles(t: Tables, t': Tables, id: Id, d: Disposition)
    requires id in t.orders
  {
    match d
    case Consume => StockMoves(t, t', id, Consumed, ReservationConsumed, -1, -1)
    case Release => StockMoves(t, t', id, Released, ReservationReleased, 0, -1)
    case Expire => StockMoves(t, t', id, Expired, ReservationExpired, 0, -1)
    case Restock => StockMoves(t, t', id, Consumed, CancellationRestock, 1, 0)
  }

  lemma SettledSettles(t: Tables, id: Id, d: Disposition)
    requires id in t.orders
    ensures Settles(t, Settled(t, d, ItemReservations(t.orders[id].items)), id, d)
  {
    hide Settled, Counted, Restated, ItemReservations;
    SettledRestates(t, id, d);
    forall s | s in t.snapshots { SettledCounts(t, id, d, s); }
  }

  lemma SettlesSame(t: Tables, u: Tables, v: Tables, id: Id, d: Disposition)
    requires id in t.orders && Settles(t, u, id, d) && StockStands(u, v)
    ensures Settles(t, v, id, d)
  {
    hide UnitsOn, Touches, Owned;
    assert forall kind: MovementKind, h: int, r: int, s: Id | s in t.snapshots :: Counted(t, u, id, kind, h, r, s) ==> Counted(t, v, id, kind, h, r, s);
  }

  /** A settlement that went through. */
  lemma SettleSays(t: Tables, id: Id, d: Disposition, to: OrderStatus, actor: Authority, reason: Option<string>, now: Time)
    requires id in t.orders && Settle(t, id, d, to, actor, reason, now).1.Ok?
    ensures var t' := Settle(t, id, d, to, actor, reason, now).0;
            Advanced(t, t', id, to, actor, reason, now) && Settles(t, t', id, d)
  {
    hide Settled, Settles, Transitioned, SettleFault, ItemReservations, RowsAt, MovedOrder;
    var ids := ItemReservations(t.orders[id].items);
    var mid := Settled(t, d, ids);
    SettledIs(t, d, ids);
    SettledSettles(t, id, d);
    TransitionAdvances(mid, id, to, actor, reason, now);
    SettlesSame(t, mid, Transitioned(mid, id, to, actor, reason, now), id, d);
  }

  lemma TransitionAdvances(t: Tables, id: Id, to: OrderStatus, actor: Authority, reason: Option<string>, now: Time)
    requires id in t.orders
    ensures var u := Transitioned(t, id, to, actor, reason, now);
            Advanced(t, u, id, to, actor, reason, now) && StockStands(t, u)
  {
  }

  // ---- The commands.

  /** Confirmation consumes: on hand and reserved both fall by the order's units. */
  lemma ConfirmSays(t: Tables, store: Id, id: Id, now: Time)
    requires ConfirmOrder(t, store, id, now).1.Ok? && id in t.orders && t.orders[id].status != Confirmed
    ensures var t' := ConfirmOrder(t, store, id, now).0;
            && t.orders[id].status == Pending
            && Advanced(t, t', id, Confirmed, Seller, t.orders[id].reason, now)
            && StockMoves(t, t', id, Consumed, ReservationConsumed, -1, -1)
  {
    hide Settle, StockMoves, Advanced;
    SettleSays(t, id, Consume, Confirmed, Seller, t.orders[id].reason, now);
  }

  /** Cancellation while pending releases: only reserved falls, and every reservation of
      the order is released. */
  lemma CancelPendingSays(t: Tables, store: Id, id: Id, authority: Authority, reason: Option<string>, now: Time)
    requires CancelPendingOrder(t, store, id, authority, reason, now).1.Ok? && id in t.orders && t.orders[id].status != Cancelled
    ensures var t' := CancelPendingOrder(t, store, id, authority, reason, now).0;
            && t.orders[id].status == Pending && authority in {Customer, Seller}
            && Advanced(t, t', id, Cancelled, authority, reason, now)
            && StockMoves(t, t', id, Released, ReservationReleased, 0, -1)
  {
    hide Settle, StockMoves, Advanced;
    SettleSays(t, id, Release, Cancelled, authority, reason, now);
  }

  /** Cancellation after confirmation puts the units back on hand; the reservations stay
      consumed. */
  lemma CancelConfirmedSays(t: Tables, store: Id, id: Id, authority: Authority, reason: Option<string>, now: Time)
    requires CancelConfirmedOrder(t, store, id, authority, reason, now).1.Ok? && id in t.orders && t.orders[id].status != Cancelled
    ensures var t' := CancelConfirmedOrder(t, store, id, authority, reason, now).0;
            && t.orders[id].status in {Confirmed, Processing} && authority == Seller
            && Advanced(t, t', id, Cancelled, Seller, reason, now)
            && StockMoves(t, t', id, Consumed, CancellationRestock, 1, 0)
  {
    hide Settle, StockMoves, Advanced;
    SettleSays(t, id, Restock, Cancelled, authority, reason, now);
  }

  /** Expiry releases the stock too, but marks every reservation of the order expired and
      names the timeout. */
  lemma ExpireSays(t: Tables, id: Id, now: Time)
    requires ExpirePendingOrder(t, id, now).1.Ok? && id in t.orders && t.orders[id].status == Pending && t.orders[id].deadline <= now
    ensures var t' := ExpirePendingOrder(t, id, now).0;
            && Advanced(t, t', id, Cancelled, Scheduler, Some("confirmation_timeout"), now)
            && StockMoves(t, t', id, Expired, ReservationExpired, 0, -1)
  {
    hide Settle, StockMoves, Advanced;
    SettleSays(t, id, Expire, Cancelled, Scheduler, Some(TIMEOUT_REASON), now);
  }

  /** An advance moves no stock; a reason given replaces the old one. */
  lemma AdvanceSays(t: Tables, store: Id, id: Id, target: OrderStatus, authority: Authority, reason: Option<string>, now: Time)
    requires AdvanceOrderStatus(t, store, id, target, authority, reason, now).1.Ok? && id in t.orders && t.orders[id].status != target
    ensures var t' := AdvanceOrderStatus(t, store, id, target, authority, reason, now).0;
            && authority == Seller && (t.orders[id].status, target) in {(Confirmed, Processing), (Processing, ReadyForShipping)}
            && Advanced(t, t', id, target, Seller, if reason.Some? then reason else t.orders[id].reason, now)
            && StockStands(t, t')
  {
    hide Transitioned, MovedOrder, Advanced, StockStands;
    TransitionAdvances(t, id, target, authority, if reason.Some? then reason else t.orders[id].reason, now);
  }

  /** A store's commands reach its own orders only: without identifiers they are invalid,
      and an order of another store is not found. */
  lemma OtherStoresOrders(t: Tables, store: Id, id: Id, authority: Authority, target: OrderStatus, reason: Option<string>, now: Time)
    requires authority == Seller && (id in t.orders ==> t.orders[id].store != store || store == 0 || id == 0)
    ensures var refused := if store == 0 || id == 0 then InvalidInput else NotFound;
            && ConfirmOrder(t, store, id, now) == (t, Err(refused))
            && CancelPendingOrder(t, store, id, authority, reason, now) == (t, Err(refused))
            && CancelConfirmedOrder(t, store, id, authority, reason, now) == (t, Err(refused))
            && AdvanceOrderStatus(t, store, id, target, authority, reason, now) == (t, Err(refused))
  {
  }
}
