/** How every cancelled order ended, over every run
    (modules/commerce/order_repository.go:722-1332). */
module Endings {
  import opened Base
  import opened Records
  import opened Orders
  import opened Tables
  import Inventory
  import opened Checkout
  import opened Finalize
  import opened Ledger
  import opened Histories
  import opened Sessions
  import opened Placement
  import opened Stockroom
  import opened Commands
  import opened Purchases
  import opened Runs
  import opened Guarantees
  import opened Effects
  import Receipts

  ghost predicate AllAre(res: map<Id, Reservation>, o: Order, status: ReservationStatus) {
    forall i :: 0 <= i < |o.items| ==> o.items[i].reservation in res && res[o.items[i].reservation].status == status
  }

  /** The last row of the timeline says who cancelled the order and from where, and the
      order's reservations agree: expired by the scheduler, released by customer or seller,
      consumed and restocked after a confirmation. */
  ghost predicate EndedAs(rows: seq<TimelineRow>, res: map<Id, Reservation>, o: Order) {
    && rows != []
    && var last := rows[|rows| - 1];
    && last.to == Cancelled
    && (   (last.from == Some(Pending) && last.actor == Scheduler && AllAre(res, o, Expired))
        || (last.from == Some(Pending) && last.actor in {Customer, Seller} && AllAre(res, o, Released))
        || (last.from in {Some(Confirmed), Some(Processing)} && last.actor == Seller && AllAre(res, o, Consumed)))
  }

  ghost predicate EndingsOk(t: Tables) {
    forall id :: id in t.orders && t.orders[id].status == Cancelled ==> EndedAs(RowsAt(t.timeline, id), t.reservations, t.orders[id])
  }

  /** Nothing an ended order is judged by changed. */
  ghost predicate Undisturbed(t: Tables, t': Tables, id: Id) {
    && id in t.orders && id in t'.orders && t'.orders[id] == t.orders[id] && RowsAt(t'.timeline, id) == RowsAt(t.timeline, id)
    && forall i :: 0 <= i < |t.orders[id].items| && t.orders[id].items[i].reservation in t.reservations ==>
         var k := t.orders[id].items[i].reservation;
         k in t'.reservations && t'.reservations[k] == t.reservations[k]
  }

  lemma UndisturbedEnds(t: Tables, t': Tables, id: Id)
    requires Undisturbed(t, t', id) && EndedAs(RowsAt(t.timeline, id), t.reservations, t.orders[id])
    ensures EndedAs(RowsAt(t'.timeline, id), t'.reservations, t'.orders[id])
  {
    var o := t.orders[id];
    forall st: ReservationStatus | AllAre(t.reservations, o, st) ensures AllAre(t'.reservations, o, st) { }
  }

  // ---- A command on one order.

  lemma RestatedAll(t: Tables, t': Tables, id: Id, status: ReservationStatus)
    requires OrdersOk(t.reservations, t.orders) && id in t.orders && Restated(t, t', id, status)
    ensures AllAre(t'.reservations, t.orders[id], status)
  {
    var o := t.orders[id];
    assert OrderOk(t.reservations, o);
    forall i | 0 <= i < |o.items| ensures o.items[i].reservation in t'.reservations && t'.reservations[o.items[i].reservation].status == status {
      assert ItemOk(t.reservations, o, i);
      assert Owned(o, o.items[i].reservation);
    }
  }

  lemma OwnedIn(o: Order, k: Id)
    ensures Owned(o, k) <==> k in ItemReservations(o.items)
  {
  }

  /** Another order's reservations are not the ones restated. */
  lemma RestatedOther(t: Tables, t': Tables, id: Id, status: ReservationStatus, k: Id)
    requires OrdersOk(t.reservations, t.orders) && id in t.orders && Restated(t, t', id, status) && k in t.orders && k != id
    ensures forall i :: 0 <= i < |t.orders[k].items| && t.orders[k].items[i].reservation in t.reservations ==>
      var r := t.orders[k].items[i].reservation;
      r in t'.reservations && t'.reservations[r] == t.reservations[r]
  {
    assert ItemReservations(t.orders[k].items) !! ItemReservations(t.orders[id].items);
    forall i | 0 <= i < |t.orders[k].items| ensures !Owned(t.orders[id], t.orders[k].items[i].reservation) {
      assert t.orders[k].items[i].reservation in ItemReservations(t.orders[k].items);
      OwnedIn(t.orders[id], t.orders[k].items[i].reservation);
    }
  }

  lemma AdvancedOthers(t: Tables, t': Tables, id: Id, to: OrderStatus, actor: Authority, reason: Option<string>, now: Time, k: Id)
    requires Advanced(t, t', id, to, actor, reason, now) && k in t.orders && k != id
    ensures k in t'.orders && t'.orders[k] == t.orders[k] && RowsAt(t'.timeline, k) == RowsAt(t.timeline, k)
  {
  }

  lemma AdvancedSelf(t: Tables, t': Tables, id: Id, to: OrderStatus, actor: Authority, reason: Option<string>, now: Time)
    requires Advanced(t, t', id, to, actor, reason, now)
    ensures t'.orders.Keys == t.orders.Keys && t'.orders[id].items == t.orders[id].items && t'.orders[id].status == to
    ensures var rows := RowsAt(t'.timeline, id);
            rows != [] && rows[|rows| - 1] == TimelineRow(Some(t.orders[id].status), to, actor, now)
  {
  }

  lemma SettlementEnds(t: Tables, t': Tables, id: Id, to: OrderStatus, actor: Authority, reason: Option<string>, now: Time,
      status: ReservationStatus)
    requires EndingsOk(t) && OrdersOk(t.reservations, t.orders)
    requires Advanced(t, t', id, to, actor, reason, now) && Restated(t, t', id, status)
    requires to == Cancelled ==>
      || (t.orders[id].status == Pending && actor == Scheduler && status == Expired)
      || (t.orders[id].status == Pending && actor in {Customer, Seller} && status == Released)
      || (t.orders[id].status in {Confirmed, Processing} && actor == Seller && status == Consumed)
    ensures EndingsOk(t')
  {
    AdvancedSelf(t, t', id, to, actor, reason, now);
    RestatedAll(t, t', id, status);
    hide OrdersOk, Restated, Advanced;
    forall k | k in t'.orders && t'.orders[k].status == Cancelled ensures EndedAs(RowsAt(t'.timeline, k), t'.reservations, t'.orders[k]) {
      if k != id {
        AdvancedOthers(t, t', id, to, actor, reason, now, k);
        RestatedOther(t, t', id, status, k);
        UndisturbedEnds(t, t', k);
      }
    }
  }

  lemma StandingEnds(t: Tables, t': Tables, id: Id, to: OrderStatus, actor: Authority, reason: Option<string>, now: Time)
    requires EndingsOk(t) && Advanced(t, t', id, to, actor, reason, now) && StockStands(t, t') && to != Cancelled
    ensures EndingsOk(t')
  {
    AdvancedSelf(t, t', id, to, actor, reason, now);
    hide Advanced;
    forall k | k in t'.orders && t'.orders[k].status == Cancelled ensures EndedAs(RowsAt(t'.timeline, k), t'.reservations, t'.orders[k]) {
      AdvancedOthers(t, t', id, to, actor, reason, now, k);
    }
  }

  lemma MovesRestate(t: Tables, t': Tables, id: Id, status: ReservationStatus, kind: MovementKind, onHand: int, reserved: int)
    requires id in t.orders && StockMoves(t, t', id, status, kind, onHand, reserved)
    ensures Restated(t, t', id, status)
  {
  }

  lemma ConfirmEnds(t: Tables, store: Id, id: Id, now: Time)
    requires EndingsOk(t) && OrdersOk(t.reservations, t.orders)
    ensures EndingsOk(ConfirmOrder(t, store, id, now).0)
  {
    hide OrdersOk, EndingsOk, Settle, Advanced, StockMoves;
    if ConfirmOrder(t, store, id, now).1.Ok? && t.orders[id].status != Confirmed {
      ConfirmSays(t, store, id, now);
      MovesRestate(t, ConfirmOrder(t, store, id, now).0, id, Consumed, ReservationConsumed, -1, -1);
      SettlementEnds(t, ConfirmOrder(t, store, id, now).0, id, Confirmed, Seller, t.orders[id].reason, now, Consumed);
    } else {
      RefusedSettle(t, id, Inventory.Consume, Confirmed, Seller, now);
    }
  }

  /** A settlement refused leaves the tables alone. */
  lemma RefusedSettle(t: Tables, id: Id, d: Inventory.Disposition, to: OrderStatus, actor: Authority, now: Time)
    ensures id in t.orders ==> forall reason :: Settle(t, id, d, to, actor, reason, now).1.Err? ==> Settle(t, id, d, to, actor, reason, now).0 == t
  {
    hide SettleFault, Settled, Transitioned, MovedOrder;
  }

  lemma CancelPendingEnds(t: Tables, store: Id, id: Id, authority: Authority, reason: Option<string>, now: Time)
    requires EndingsOk(t) && OrdersOk(t.reservations, t.orders)
    ensures EndingsOk(CancelPendingOrder(t, store, id, authority, reason, now).0)
  {
    hide OrdersOk, EndingsOk, Settle, Advanced, StockMoves;
    var t' := CancelPendingOrder(t, store, id, authority, reason, now).0;
    if CancelPendingOrder(t, store, id, authority, reason, now).1.Ok? && t.orders[id].status != Cancelled {
      CancelPendingSays(t, store, id, authority, reason, now);
      MovesRestate(t, t', id, Released, ReservationReleased, 0, -1);
      SettlementEnds(t, t', id, Cancelled, authority, reason, now, Released);
    } else {
      RefusedSettle(t, id, Inventory.Release, Cancelled, authority, now);
    }
  }

  lemma CancelConfirmedEnds(t: Tables, store: Id, id: Id, authority: Authority, reason: Option<string>, now: Time)
    requires EndingsOk(t) && OrdersOk(t.reservations, t.orders)
    ensures EndingsOk(CancelConfirmedOrder(t, store, id, authority, reason, now).0)
  {
    hide OrdersOk, EndingsOk, Settle, Advanced, StockMoves;
    var t' := CancelConfirmedOrder(t, store, id, authority, reason, now).0;
    if CancelConfirmedOrder(t, store, id, authority, reason, now).1.Ok? && t.orders[id].status != Cancelled {
      CancelConfirmedSays(t, store, id, authority, reason, now);
      MovesRestate(t, t', id, Consumed, CancellationRestock, 1, 0);
      SettlementEnds(t, t', id, Cancelled, Seller, reason, now, Consumed);
    } else {
      RefusedSettle(t, id, Inventory.Restock, Cancelled, authority, now);
    }
  }

  lemma ExpireEnds(t: Tables, id: Id, now: Time)
    requires EndingsOk(t) && OrdersOk(t.reservations, t.orders)
    ensures EndingsOk(ExpirePendingOrder(t, id, now).0)
  {
    hide OrdersOk, EndingsOk, Settle, Advanced, StockMoves;
    var t' := ExpirePendingOrder(t, id, now).0;
    if ExpirePendingOrder(t, id, now).1.Ok? && id in t.orders && t.orders[id].status == Pending && t.orders[id].deadline <= now {
      ExpireSays(t, id, now);
      MovesRestate(t, t', id, Expired, ReservationExpired, 0, -1);
      SettlementEnds(t, t', id, Cancelled, Scheduler, Some("confirmation_timeout"), now, Expired);
    } else {
      RefusedSettle(t, id, Inventory.Expire, Cancelled, Scheduler, now);
    }
  }

  lemma AdvanceEnds(t: Tables, store: Id, id: Id, target: OrderStatus, authority: Authority, reason: Option<string>, now: Time)
    requires EndingsOk(t)
    ensures EndingsOk(AdvanceOrderStatus(t, store, id, target, authority, reason, now).0)
  {
    hide EndingsOk, Transitioned, MovedOrder, Advanced, StockStands;
    var (t', r) := AdvanceOrderStatus(t, store, id, target, authority, reason, now);
    if r.Ok? && t.orders[id].status != target {
      AdvanceSays(t, store, id, target, authority, reason, now);
      StandingEnds(t, t', id, target, Seller, if reason.Some? then reason else t.orders[id].reason, now);
    }
  }

  // ---- Every other step.

  lemma SameRowsEnd(t: Tables, t': Tables)
    requires EndingsOk(t) && t'.orders == t.orders && t'.timeline == t.timeline && SameRows(t.reservations, t'.reservations)
    ensures EndingsOk(t')
  {
    forall k | k in t'.orders && t'.orders[k].status == Cancelled ensures EndedAs(RowsAt(t'.timeline, k), t'.reservations, t'.orders[k]) {
      UndisturbedEnds(t, t', k);
    }
  }

  lemma RecordedEnds(t: Tables, t': Tables, request: FinalizeRequest, id: Id, o: Order, at: Time)
    requires request.session in t.sessions && t.sessions[request.session].cart in t.carts
    requires EndingsOk(t) && Receipts.Recorded(t, t', request, id, o, at) && o.status == Pending
    ensures EndingsOk(t')
  {
    forall k | k in t'.orders && t'.orders[k].status == Cancelled ensures EndedAs(RowsAt(t'.timeline, k), t'.reservations, t'.orders[k]) {
      UndisturbedEnds(t, t', k);
    }
  }

  lemma FinalizeEnds(t: Tables, store: Id, request: FinalizeRequest, now: Time, at: Time, duration: int, f: Fresh)
    requires EndingsOk(t) && Inv(t) && AttemptFresh(t, request, f) && at != 0
    ensures EndingsOk(FinalizeCheckout(t, store, request, now, at, duration, f).0)
  {
    hide Inv, EndingsOk, FinalizeCheckout, Receipts.Recorded, Receipts.Itemized;
    var (t', r) := FinalizeCheckout(t, store, request, now, at, duration, f);
    FinalizeOutcome(t, store, request, now, at, duration, f);
    if r.Ok? && !Finalized(t, request.session) {
      Receipts.PlacedOrderSays(t, store, request, now, at, duration, f);
      RecordedEnds(t, t', request, f.order, r.value, at);
    }
  }

  lemma OrderStepEnds(t: Tables, id: Id, c: OrderCommand)
    requires EndingsOk(t) && OrdersOk(t.reservations, t.orders)
    ensures EndingsOk(OrderStep(t, id, c))
  {
    hide OrdersOk, EndingsOk, ConfirmOrder, CancelPendingOrder, CancelConfirmedOrder, ExpirePendingOrder, AdvanceOrderStatus;
    match c {
      case Confirm(store, now) => ConfirmEnds(t, store, id, now);
      case CancelPending(store, authority, reason, now) => CancelPendingEnds(t, store, id, authority, reason, now);
      case CancelConfirmed(store, authority, reason, now) => CancelConfirmedEnds(t, store, id, authority, reason, now);
      case ExpirePending(now) => ExpireEnds(t, id, now);
      case Advance(store, target, authority, reason, now) => AdvanceEnds(t, store, id, target, authority, reason, now);
    }
  }

  lemma CheckoutRowsEnd(t: Tables, t': Tables)
    requires EndingsOk(t) && OnlyCheckoutRows(t, t')
    ensures EndingsOk(t')
  {
    SameRowsEnd(t, t');
  }

  lemma StockRowsEnd(t: Tables, t': Tables)
    requires EndingsOk(t) && OnlyStockRows(t, t') && SameRows(t.reservations, t'.reservations)
    ensures EndingsOk(t')
  {
    SameRowsEnd(t, t');
  }

  lemma StockStepEnds(t: Tables, id: Id, c: StockCommand)
    requires EndingsOk(t) && Inv(t) && (c.NewSnapshot? ==> id != NO_ID)
    ensures EndingsOk(StockStep(t, id, c))
  {
    assert StockOk(t) && NO_ID !in t.snapshots;
    hide Inv, StockOk, BooksOk, EndingsOk, OnlyStockRows, CreateInventorySnapshot, AdjustInventory, ReserveInventory;
    match c {
      case NewSnapshot(location, sku, onHand) => CreateKeepsStock(t, id, location, sku, onHand);
      case Adjust(delta, movementType) => AdjustKeepsStock(t, id, delta, movementType);
      case Reserve(quantity, token, reservation, expiresAt) => ReserveKeepsStock(t, id, quantity, token, reservation, expiresAt);
    }
    StockRowsEnd(t, StockStep(t, id, c));
  }

  lemma StepEnds(t: Tables, step: Step)
    requires EndingsOk(t) && Inv(t) && Enabled(t, step)
    ensures EndingsOk(Apply(t, step))
  {
    InvStock(t);
    hide Inv, StockOk, OrdersOk, EndingsOk, OnlyCheckoutRows, OrderStep, CartStep, StockStep, FinalizeCheckout, CreateCheckoutSession, AttemptFresh;
    match step {
      case OnOrder(id, c) => OrderStepEnds(t, id, c);
      case OnCart(id, c) => CartStepGrows(t, id, c); CheckoutRowsEnd(t, CartStep(t, id, c));
      case OnStock(id, c) => StockStepEnds(t, id, c);
      case NewSession(id, store, cart, customer, lifetime, now) =>
        NewSessionGrows(t, id, store, cart, customer, lifetime, now);
        CheckoutRowsEnd(t, CreateCheckoutSession(t, id, store, cart, customer, lifetime, now).0);
      case Finalize(store, request, now, at, duration, f) => FinalizeEnds(t, store, request, now, at, duration, f);
      case Rewrite(catalog) => RewriteGrows(t, catalog); CheckoutRowsEnd(t, t.(catalog := catalog));
    }
  }

  lemma {:induction false} RunEnds(t: Tables, steps: seq<Step>)
    requires EndingsOk(t) && Inv(t) && Possible(t, steps)
    ensures EndingsOk(Run(t, steps))
    decreases |steps|
  {
    if steps != [] {
      hide Inv, EndingsOk, Apply, Enabled, Later;
      StepKeepsInv(t, steps[0]);
      StepEnds(t, steps[0]);
      RunEnds(Apply(t, steps[0]), steps[1..]);
    }
  }

  /** In every reached state the reservations of a cancelled order say how it ended: all
      expired if the scheduler cancelled it, all released if customer or seller did while
      it was pending, all consumed, and restocked, if the seller did after confirmation. */
  lemma CancelledOrdersEnded(catalog: Catalog, steps: seq<Step>, t: Tables, id: Id)
    requires ReachedBy(catalog, steps, t) && id in t.orders && t.orders[id].status == Cancelled
    ensures EndedAs(RowsAt(t.timeline, id), t.reservations, t.orders[id])
  {
    hide Inv, EndedAs, Possible, Run;
    EmptyInv(catalog);
    RunEnds(Empty(catalog), steps);
  }
}
