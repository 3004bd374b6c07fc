/** Every order command keeps the ledger, the agreement of orders and reservations, the
    order histories and the checkout records; and it answers exactly as its guard says. */
module Commands {
  import opened Base
  import opened Records
  import opened Orders
  import opened Inventory
  import opened Tables
  import opened Ledger
  import opened Settlements
  import opened Histories
  import opened Sessions

  ghost predicate Inv(t: Tables) {
    && NO_ID !in t.snapshots && NO_ID !in t.orders
    && StockOk(t) && OrdersOk(t.reservations, t.orders) && TraceOk(t) && CheckoutOk(t)
  }

  // ---- One settlement.

  function TargetOf(d: Disposition): OrderStatus {
    if d == Consume then Confirmed else Cancelled
  }

  /** The order stands where a settlement of this kind starts. */
  ghost predicate Ready(t: Tables, id: Id, d: Disposition) {
    && id in t.orders
    && t.orders[id].status != Cancelled
    && AllHave(t.reservations, t.orders[id], StatusBefore(d))
  }

  lemma MarkedReservationsOk(snaps: SnapshotTable, res: Reservations, ids: set<Id>, d: Disposition)
    requires ReservationsOk(snaps, res)
    ensures ReservationsOk(SettledSnapshots(d, snaps, res, ids, Touched(res, ids)), Marked(res, ids, StatusAfter(d)))
  {
  }

  lemma SettledLogOk(snaps: SnapshotTable, log: MovementTable, res: Reservations, ids: set<Id>, d: Disposition)
    requires LogOk(snaps, log)
    ensures LogOk(SettledSnapshots(d, snaps, res, ids, Touched(res, ids)), SettledMovements(d, log, snaps, res, ids, Touched(res, ids)))
  {
  }

  lemma SettleKeepsStock(t: Tables, id: Id, d: Disposition, o': Order)
    requires StockOk(t) && OrdersOk(t.reservations, t.orders) && Ready(t, id, d)
    requires o'.items == t.orders[id].items && o'.status == TargetOf(d)
    ensures var ids := ItemReservations(t.orders[id].items);
            var snaps' := SettledSnapshots(d, t.snapshots, t.reservations, ids, Touched(t.reservations, ids));
            var log' := SettledMovements(d, t.movements, t.snapshots, t.reservations, ids, Touched(t.reservations, ids));
            var res' := Marked(t.reservations, ids, StatusAfter(d));
            BooksOk(snaps', res', log', t.orders[id := o'])
  {
    var o := t.orders[id];
    var ids := ItemReservations(o.items);
    assert OrderOk(t.reservations, o);
    HaveStatus(t.reservations, o, StatusBefore(d));
    CancelledGrows(t.orders, id, o');
    SettledCounters(d, t.snapshots, t.reservations, ids);
    SettledHistory(d, t.snapshots, t.movements, t.reservations, t.orders, t.orders[id := o'], ids);
    MarkedReservationsOk(t.snapshots, t.reservations, ids, d);
    SettledLogOk(t.snapshots, t.movements, t.reservations, ids, d);
  }

  lemma AgreesAfter(o: Order, d: Disposition, r: Reservations)
    requires o.status == TargetOf(d) && AllHave(r, o, StatusAfter(d))
    ensures StatusAgrees(r, o)
  {
  }

  lemma SettleKeepsOrders(t: Tables, id: Id, d: Disposition, o': Order)
    requires OrdersOk(t.reservations, t.orders) && Ready(t, id, d)
    requires o'.items == t.orders[id].items && o'.deadline == t.orders[id].deadline && o'.status == TargetOf(d)
    ensures OrdersOk(Marked(t.reservations, ItemReservations(o'.items), StatusAfter(d)), t.orders[id := o'])
  {
    forall r: Reservations | AllHave(r, o', StatusAfter(d)) ensures StatusAgrees(r, o') { AgreesAfter(o', d, r); }
    SettledOrders(t.reservations, t.orders, id, o', StatusAfter(d));
  }

  /** Rows that a transition never rewrites. */
  ghost predicate OnlyOrderMoves(t: Tables, t': Tables, id: Id, o': Order) {
    && id in t.orders && t'.orders == t.orders[id := o']
    && o'.session == t.orders[id].session && o'.store == t.orders[id].store && o'.number == t.orders[id].number
    && t'.sequences == t.sequences && t'.bySession == t.bySession && t'.byNumber == t.byNumber
    && t'.sessions == t.sessions && t'.carts == t.carts
  }

  /** One order made a move the transition matrix allows its actor at that time, and no
      other order, cart or session changed. */
  ghost predicate Moved(t: Tables, t': Tables, id: Id, actor: Authority, now: Time) {
    && id in t.orders && id in t'.orders
    && Allowed(Some(t.orders[id].status), actor, t'.orders[id].status, t.orders[id].deadline, now)
    && t'.orders[id] == MovedOrder(t.orders[id], t'.orders[id].status, t'.orders[id].reason, now)
    && OnlyOrderMoves(t, t', id, t'.orders[id])
  }

  lemma MoveGrows(t: Tables, t': Tables, id: Id, o': Order)
    requires OnlyOrderMoves(t, t', id, o')
    ensures Grows(t, t')
  {
  }

  lemma TransitionMoves(t: Tables, id: Id, to: OrderStatus, actor: Authority, reason: Option<string>, now: Time)
    requires id in t.orders
    ensures OnlyOrderMoves(t, Transitioned(t, id, to, actor, reason, now), id, MovedOrder(t.orders[id], to, reason, now))
  {
  }

  lemma SettledTrace(t: Tables, d: Disposition, ids: set<Id>)
    requires TraceOk(t)
    ensures TraceOk(Settled(t, d, ids))
  {
    var t' := Settled(t, d, ids);
    forall k | k in t'.orders ensures HistoryFor(t'.timeline, t'.events, k, t'.orders[k]) {
      assert HistoryFor(t.timeline, t.events, k, t.orders[k]);
    }
  }

  lemma SettledMoves(t: Tables, id: Id, d: Disposition, actor: Authority, reason: Option<string>, now: Time)
    requires id in t.orders
    ensures var t' := Transitioned(Settled(t, d, ItemReservations(t.orders[id].items)), id, TargetOf(d), actor, reason, now);
            OnlyOrderMoves(t, t', id, MovedOrder(t.orders[id], TargetOf(d), reason, now))
  {
  }

  lemma SettledKeepsInv(t: Tables, id: Id, d: Disposition, actor: Authority, reason: Option<string>, now: Time)
    requires Inv(t) && Ready(t, id, d)
    requires Allowed(Some(t.orders[id].status), actor, TargetOf(d), t.orders[id].deadline, now)
    ensures Inv(Transitioned(Settled(t, d, ItemReservations(t.orders[id].items)), id, TargetOf(d), actor, reason, now))
  {
    var ids := ItemReservations(t.orders[id].items);
    var mid := Settled(t, d, ids);
    var t' := Transitioned(mid, id, TargetOf(d), actor, reason, now);
    var o' := MovedOrder(t.orders[id], TargetOf(d), reason, now);
    SettleKeepsStock(t, id, d, o');
    SettleKeepsOrders(t, id, d, o');
    SettledTrace(t, d, ids);
    TransitionKeepsTrace(mid, id, TargetOf(d), actor, reason, now);
    SettledMoves(t, id, d, actor, reason, now);
    MoveGrows(t, t', id, o');
    GrowKeepsCheckout(t, t');
  }

  lemma NothingRefuses(t: Tables, id: Id, d: Disposition, now: Time)
    requires Inv(t) && Ready(t, id, d) && (d == Consume ==> now < t.orders[id].deadline)
    ensures SettleFault(t.snapshots, t.reservations, t.orders[id], d, now).None?
  {
    hide TraceOk, CheckoutOk, HistoryOk, SettleFault, CountersOk, ReservationsOk;
    assert OrderOk(t.reservations, t.orders[id]);
    SettleSucceeds(t.snapshots, t.reservations, t.orders[id], d, now);
  }

  /** A settlement whose order is ready and whose move is allowed commits. */
  lemma SettleExact(t: Tables, id: Id, d: Disposition, actor: Authority, reason: Option<string>, now: Time)
    requires Inv(t) && Ready(t, id, d)
    requires Allowed(Some(t.orders[id].status), actor, TargetOf(d), t.orders[id].deadline, now)
    requires d == Consume ==> now < t.orders[id].deadline
    ensures var (t', r) := Settle(t, id, d, TargetOf(d), actor, reason, now);
            && r == Ok(MovedOrder(t.orders[id], TargetOf(d), reason, now))
            && id in t'.orders && t'.orders[id] == r.value && Inv(t') && Moved(t, t', id, actor, now)
  {
    hide Inv, SettleFault;
    NothingRefuses(t, id, d, now);
    SettledMoves(t, id, d, actor, reason, now);
    SettledKeepsInv(t, id, d, actor, reason, now);
  }

  // ---- The commands, exactly.

  predicate Named(t: Tables, store: Id, id: Id) {
    store != NO_ID && id != NO_ID && OrderIn(t, store, id)
  }

  lemma ReadyFrom(t: Tables, id: Id, d: Disposition)
    requires Inv(t) && id in t.orders
    requires if d == Restock then t.orders[id].status in {Confirmed, Processing, ReadyForShipping} else t.orders[id].status == Pending
    ensures Ready(t, id, d) && t.orders[id].items != []
  {
    hide StockOk, TraceOk, CheckoutOk;
    assert OrderOk(t.reservations, t.orders[id]);
  }

  /** Confirmation of an order in the store succeeds if and only if it is already
      confirmed or still pending before its deadline; otherwise nothing changes. */
  lemma ConfirmExact(t: Tables, store: Id, id: Id, now: Time)
    requires Inv(t) && now != 0 && Named(t, store, id)
    ensures var (t', r) := ConfirmOrder(t, store, id, now);
            var o := t.orders[id];
            && Inv(t')
            && (r.Ok? <==> o.status == Confirmed || (o.status == Pending && now < o.deadline))
            && (r.Ok? ==> id in t'.orders && r.value == t'.orders[id] && r.value.status == Confirmed)
            && (r.Err? ==> r.error == InvalidTransition)
            && (if r.Err? || o.status == Confirmed then t' == t else Moved(t, t', id, Seller, now))
  {
    hide Inv;
    var o := t.orders[id];
    if o.status == Pending && now < o.deadline {
      ReadyFrom(t, id, Consume);
      SettleExact(t, id, Consume, Seller, o.reason, now);
    }
  }

  lemma CancelPendingExact(t: Tables, store: Id, id: Id, authority: Authority, reason: Option<string>, now: Time)
    requires Inv(t) && now != 0 && Named(t, store, id)
    ensures var (t', r) := CancelPendingOrder(t, store, id, authority, reason, now);
            var o := t.orders[id];
            && Inv(t')
            && (r.Ok? <==> authority in {Customer, Seller} && o.status in {Cancelled, Pending})
            && (r.Ok? ==> id in t'.orders && r.value == t'.orders[id] && r.value.status == Cancelled)
            && (r.Err? ==> r.error == InvalidTransition)
            && (if r.Err? || o.status == Cancelled then t' == t else Moved(t, t', id, authority, now))
  {
    hide Inv;
    if authority in {Customer, Seller} && t.orders[id].status == Pending {
      ReadyFrom(t, id, Release);
      SettleExact(t, id, Release, authority, reason, now);
    }
  }

  lemma CancelConfirmedExact(t: Tables, store: Id, id: Id, authority: Authority, reason: Option<string>, now: Time)
    requires Inv(t) && now != 0 && Named(t, store, id)
    ensures var (t', r) := CancelConfirmedOrder(t, store, id, authority, reason, now);
            var o := t.orders[id];
            && Inv(t')
            && (r.Ok? <==> authority == Seller && o.status in {Cancelled, Confirmed, Processing})
            && (r.Ok? ==> id in t'.orders && r.value == t'.orders[id] && r.value.status == Cancelled)
            && (r.Err? ==> r.error == InvalidTransition)
            && (if r.Err? || o.status == Cancelled then t' == t else Moved(t, t', id, authority, now))
  {
    hide Inv;
    if authority == Seller && t.orders[id].status in {Confirmed, Processing} {
      ReadyFrom(t, id, Restock);
      SettleExact(t, id, Restock, authority, reason, now);
    }
  }

  /** Expiry never errs: it cancels exactly the pending orders that are due. */
  lemma ExpireExact(t: Tables, id: Id, now: Time)
    requires Inv(t) && now != 0 && id != NO_ID
    ensures var (t', r) := ExpirePendingOrder(t, id, now);
            var due := id in t.orders && t.orders[id].status == Pending && now >= t.orders[id].deadline;
            && Inv(t') && r.Ok?
            && (r.value.None? <==> id !in t.orders)
            && (if due then Moved(t, t', id, Scheduler, now) else t' == t)
            && (due ==> t'.orders[id].status == Cancelled && r.value == Some(t'.orders[id]))
  {
    hide Inv;
    if id in t.orders && t.orders[id].status == Pending && now >= t.orders[id].deadline {
      ReadyFrom(t, id, Expire);
      SettleExact(t, id, Expire, Scheduler, Some(TIMEOUT_REASON), now);
    }
  }

  // ---- Advancing moves no stock.

  lemma AdvancedCancelled(orders: OrderTable, id: Id, o': Order)
    requires id in orders && orders[id].status != Cancelled && o'.status != Cancelled
    ensures CancelledReservations(orders[id := o']) == CancelledReservations(orders)
  {
    var orders' := orders[id := o'];
    assert forall k :: k in orders' && orders'[k].status == Cancelled <==> k in orders && orders[k].status == Cancelled;
    assert forall k :: k in orders && orders[k].status == Cancelled ==> orders'[k] == orders[k];
  }

  lemma AdvanceKeepsBooks(t: Tables, id: Id, o': Order)
    requires StockOk(t) && id in t.orders && t.orders[id].status != Cancelled && o'.status != Cancelled
    ensures BooksOk(t.snapshots, t.reservations, t.movements, t.orders[id := o'])
  {
    AdvancedCancelled(t.orders, id, o');
    forall s | s in t.snapshots ensures HistoryAt(t.snapshots, t.movements, t.reservations, t.orders[id := o'], s) {
      assert HistoryAt(t.snapshots, t.movements, t.reservations, t.orders, s);
    }
  }

  lemma AdvanceKeepsOrders(res: Reservations, orders: OrderTable, id: Id, o': Order)
    requires OrdersOk(res, orders) && id in orders
    requires orders[id].status in {Confirmed, Processing} && o'.status in {Processing, ReadyForShipping}
    requires o'.items == orders[id].items && o'.deadline == orders[id].deadline
    ensures OrdersOk(res, orders[id := o'])
  {
    var orders' := orders[id := o'];
    forall k | k in orders' ensures OrderOk(res, orders'[k]) {
      assert OrderOk(res, orders[k]);
      if k == id {
        forall i | 0 <= i < |o'.items| ensures ItemOk(res, o', i) { assert ItemOk(res, orders[id], i); }
      }
    }
    SameItemsUnshared(orders, id, o');
  }

  lemma AdvancedKeepsInv(t: Tables, id: Id, to: OrderStatus, actor: Authority, reason: Option<string>, now: Time)
    requires Inv(t) && id in t.orders && NeutralAdvance(t.orders[id].status, to, actor)
    requires Allowed(Some(t.orders[id].status), actor, to, t.orders[id].deadline, now)
    ensures Inv(Transitioned(t, id, to, actor, reason, now))
  {
    var t' := Transitioned(t, id, to, actor, reason, now);
    var o' := MovedOrder(t.orders[id], to, reason, now);
    AdvanceKeepsBooks(t, id, o');
    AdvanceKeepsOrders(t.reservations, t.orders, id, o');
    TransitionKeepsTrace(t, id, to, actor, reason, now);
    TransitionMoves(t, id, to, actor, reason, now);
    MoveGrows(t, t', id, o');
    GrowKeepsCheckout(t, t');
  }

  lemma AdvanceMoves(t: Tables, id: Id, to: OrderStatus, actor: Authority, reason: Option<string>, now: Time)
    requires Inv(t) && now != 0 && id in t.orders && NeutralAdvance(t.orders[id].status, to, actor)
    ensures var t' := Transitioned(t, id, to, actor, reason, now);
            && Inv(t') && Moved(t, t', id, actor, now)
            && t'.snapshots == t.snapshots && t'.reservations == t.reservations && t'.movements == t.movements
  {
    hide Inv;
    TransitionMoves(t, id, to, actor, reason, now);
    AdvancedKeepsInv(t, id, to, actor, reason, now);
  }

  lemma AdvanceExact(t: Tables, store: Id, id: Id, target: OrderStatus, authority: Authority,
      reason: Option<string>, now: Time)
    requires Inv(t) && now != 0 && Named(t, store, id)
    ensures var (t', r) := AdvanceOrderStatus(t, store, id, target, authority, reason, now);
            var o := t.orders[id];
            && Inv(t')
            && (r.Ok? <==> o.status == target || NeutralAdvance(o.status, target, authority))
            && (r.Ok? ==> id in t'.orders && r.value == t'.orders[id] && r.value.status == target)
            && (r.Err? ==> r.error == InvalidTransition)
            && (if r.Err? || o.status == target then t' == t else Moved(t, t', id, authority, now))
            && t'.snapshots == t.snapshots && t'.reservations == t.reservations && t'.movements == t.movements
  {
    hide Inv, OnlyOrderMoves;
    var o := t.orders[id];
    if o.status != target && NeutralAdvance(o.status, target, authority) {
      var why := if reason.Some? then reason else o.reason;
      AdvanceMoves(t, id, target, authority, why, now);
    }
  }
}
