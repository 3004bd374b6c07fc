/** A committed finalize keeps every invariant; a failed one changes nothing; a repeated
    one returns the stored order. */
module Purchases {
  import opened Base
  import opened Money
  import opened Records
  import opened Orders
  import opened Inventory
  import opened Fingerprints
  import opened Tables
  import opened Checkout
  import opened Finalize
  import opened Ledger
  import opened Histories
  import opened Sessions
  import opened Placement
  import opened Stockroom
  import opened Holding
  import opened Commands

  // ---- The new order joins the others.

  ghost predicate Owns(o: Order, items: seq<CartItem>, rids: seq<Id>) {
    && |o.items| == |items| == |rids| && items != []
    && forall i :: 0 <= i < |items| ==>
         o.items[i].reservation == rids[i] != NO_ID && o.items[i].quantity == items[i].quantity
  }

  lemma NewOrderOk(res: Reservations, o: Order, items: seq<CartItem>, choices: seq<Id>, rids: seq<Id>)
    requires Owns(o, items, rids) && |choices| == |items| && o.status == Pending && Distinct(rids)
    requires forall i :: 0 <= i < |items| ==> RowHeld(res, items, choices, rids, o.deadline, i)
    ensures OrderOk(res, o)
  {
    forall i | 0 <= i < |o.items| ensures ItemOk(res, o, i) && res[o.items[i].reservation].status == Held {
      assert RowHeld(res, items, choices, rids, o.deadline, i);
    }
  }

  lemma NewOrderUnshared(res: Reservations, orders: OrderTable, id: Id, o: Order, items: seq<CartItem>, rids: seq<Id>)
    requires OrdersOk(res, orders) && id !in orders && Owns(o, items, rids)
    requires forall i :: 0 <= i < |rids| ==> rids[i] !in res
    ensures Unshared(orders[id := o])
  {
    var orders' := orders[id := o];
    forall a | a in orders ensures ItemReservations(orders[a].items) <= res.Keys {
      assert OrderOk(res, orders[a]);
      forall k | k in ItemReservations(orders[a].items) ensures k in res {
        var i :| 0 <= i < |orders[a].items| && orders[a].items[i].reservation == k;
        assert ItemOk(res, orders[a], i);
      }
    }
    assert forall k :: k in ItemReservations(o.items) ==> k !in res;
    forall a, b | a in orders' && b in orders' && a != b
      ensures ItemReservations(orders'[a].items) !! ItemReservations(orders'[b].items)
    {
      if a != id && b != id { assert ItemReservations(orders[a].items) !! ItemReservations(orders[b].items); }
    }
  }

  lemma PendingCancelsNothing(orders: OrderTable, id: Id, o: Order)
    requires id !in orders && o.status == Pending
    ensures CancelledReservations(orders[id := o]) == CancelledReservations(orders)
  {
    var orders' := orders[id := o];
    assert forall k :: k in orders' && orders'[k].status == Cancelled <==> k in orders && orders[k].status == Cancelled;
    assert forall k :: k in orders && orders[k].status == Cancelled ==> orders'[k] == orders[k];
  }

  lemma PendingKeepsBooks(snaps: SnapshotTable, res: Reservations, log: MovementTable, orders: OrderTable, id: Id,
      o: Order)
    requires BooksOk(snaps, res, log, orders) && id !in orders && o.status == Pending
    ensures BooksOk(snaps, res, log, orders[id := o])
  {
    PendingCancelsNothing(orders, id, o);
    forall s | s in snaps ensures HistoryAt(snaps, log, res, orders[id := o], s) {
      assert HistoryAt(snaps, log, res, orders, s);
    }
  }

  lemma NewHistory(o: Order, at: Time)
    requires o.status == Pending && o.version == 1 && at != 0
    ensures TimelineOk([TimelineRow(None, Pending, Records.Checkout, at)], o)
    ensures EventsOk([OrderEvent(OrderCreated, 1, Pending, at)], [TimelineRow(None, Pending, Records.Checkout, at)])
  {
    assert RowOk([TimelineRow(None, Pending, Records.Checkout, at)], o.deadline, 0);
  }

  lemma PlacedTrace(t: Tables, t': Tables, id: Id, o: Order)
    requires TraceOk(t) && id !in t.orders && id !in t.timeline && id !in t.events
    requires o.status == Pending && o.version == 1 && o.createdAt != 0
    requires t'.orders == t.orders[id := o]
    requires t'.timeline == Append(t.timeline, id, TimelineRow(None, Pending, Records.Checkout, o.createdAt))
    requires t'.events == Append(t.events, id, OrderEvent(OrderCreated, o.version, Pending, o.createdAt))
    ensures TraceOk(t')
  {
    NewHistory(o, o.createdAt);
    forall k | k in t'.orders ensures HistoryFor(t'.timeline, t'.events, k, t'.orders[k]) {
      if k != id { assert HistoryFor(t.timeline, t.events, k, t.orders[k]); }
    }
  }

  // ---- The whole placement.

  function ItemsOf(t: Tables, session: Id): seq<CartItem>
    requires session in t.sessions && t.sessions[session].cart in t.carts
  {
    t.carts[t.sessions[session].cart].items
  }

  /** The attempt's checks have passed: an allocation plan and an acceptable order row. */
  ghost predicate Placeable(t: Tables, store: Id, request: FinalizeRequest, fp: Fingerprint, at: Time, f: Fresh) {
    && MayClose(t, request, fp) && SessionIn(t, store, request.session)
    && Accept(t, store, request).Ok?
    && FreshFor(t, f, |ItemsOf(t, request.session)|) && at != 0
  }

  ghost function PlacedOrder(t: Tables, store: Id, request: FinalizeRequest, fp: Fingerprint, at: Time,
      duration: int, f: Fresh): (o: Order)
    requires Placeable(t, store, request, fp, at, f)
  {
    PlanInSnapshots(t, store, request);
    NewOrder(t, store, request, Accept(t, store, request).value, f, at, at + Confirmation(duration))
  }

  ghost function PlacedStock(t: Tables, store: Id, request: FinalizeRequest, fp: Fingerprint, at: Time,
      duration: int, f: Fresh): Stock
    requires Placeable(t, store, request, fp, at, f)
  {
    PlanInSnapshots(t, store, request);
    HoldAll(StockOf(t), ItemsOf(t, request.session), Accept(t, store, request).value.choices, f.reservations, at + Confirmation(duration))
  }

  lemma PlaceUnfolds(t: Tables, store: Id, request: FinalizeRequest, fp: Fingerprint, at: Time, duration: int, f: Fresh)
    requires Placeable(t, store, request, fp, at, f)
    ensures var o := PlacedOrder(t, store, request, fp, at, duration, f);
            var (t', r) := Place(t, store, request, fp, at, duration, f);
            if CreateFault(t, f.order, o).Some? then t' == t && r == Err(CreateFault(t, f.order, o).value)
            else r == Ok(o) && t' == Placed(t, request, fp, PlacedStock(t, store, request, fp, at, duration, f), f.order, o)
  {
    PlanInSnapshots(t, store, request);
  }

  lemma PlaceIs(t: Tables, store: Id, request: FinalizeRequest, fp: Fingerprint, at: Time, duration: int, f: Fresh,
      a: Accepted)
    requires SessionIn(t, store, request.session) && CartIn(t, store, t.sessions[request.session].cart)
    requires |f.reservations| == |ItemsOf(t, request.session)| && Accept(t, store, request) == Ok(a)
    requires |a.choices| == |a.cart.lines| == |ItemsOf(t, request.session)| && forall i :: 0 <= i < |a.choices| ==> a.choices[i] in t.snapshots
    ensures var deadline := at + Confirmation(duration);
            var o := NewOrder(t, store, request, a, f, at, deadline);
            var fault := CreateFault(t, f.order, o);
            Place(t, store, request, fp, at, duration, f) ==
              if fault.Some? then (t, Err(fault.value))
              else (Placed(t, request, fp, HoldAll(StockOf(t), ItemsOf(t, request.session), a.choices, f.reservations, deadline), f.order, o), Ok(o))
  {
    hide Accept, HoldAll, CreateFault, Placed, NewOrder;
  }

  lemma PlanOf(t: Tables, store: Id, request: FinalizeRequest)
    requires SessionIn(t, store, request.session) && CartIn(t, store, t.sessions[request.session].cart)
    requires Accept(t, store, request).Ok?
    ensures var a := Accept(t, store, request).value;
            var items := ItemsOf(t, request.session);
            && |a.cart.lines| == |items| == |a.choices|
            && IsPlan(DemandsOf(items, a.cart.lines), t.snapshots, a.choices)
            && Demands(DemandsOf(items, a.cart.lines), items)
  {
    PlanInSnapshots(t, store, request);
    var a := Accept(t, store, request).value;
    PlanIsPlan(DemandsOf(ItemsOf(t, request.session), a.cart.lines), t.snapshots);
  }

  lemma PlacedKeepsOrders(
    res: Reservations, res': Reservations, orders: OrderTable, id: Id, o: Order, items: seq<CartItem>, choices: seq<Id>, rids: seq<Id>)
    requires OrdersOk(res, orders) && id !in orders && SameRows(res, res')
    requires Owns(o, items, rids) && |choices| == |items| && o.status == Pending && Distinct(rids)
    requires forall i :: 0 <= i < |rids| ==> rids[i] !in res
    requires forall i :: 0 <= i < |items| ==> RowHeld(res', items, choices, rids, o.deadline, i)
    ensures OrdersOk(res', orders[id := o])
  {
    hide OrderOk, Unshared;
    MoreRowsKeepOrders(res, res', orders);
    NewOrderOk(res', o, items, choices, rids);
    NewOrderUnshared(res, orders, id, o, items, rids);
  }

  /** Stock, ledger and orders after the holds and the new order row. */
  lemma HoldsKeepStock(
    st: Stock, orders: OrderTable, lines: seq<Demand>, items: seq<CartItem>, choices: seq<Id>, rids: seq<Id>, id: Id, o: Order)
    requires Balanced(st, orders) && OrdersOk(st.reservations, orders) && id !in orders
    requires HoldsReady(st, items, choices, rids) && Demands(lines, items) && IsPlan(lines, st.snapshots, choices)
    requires Owns(o, items, rids) && o.status == Pending
    ensures Balanced(HoldAll(st, items, choices, rids, o.deadline), orders[id := o])
    ensures OrdersOk(HoldAll(st, items, choices, rids, o.deadline).reservations, orders[id := o])
  {
    hide BooksOk, OrdersOk, IsPlan;
    HoldsBalance(st, lines, items, choices, rids, o.deadline, orders);
    HeldRows(st, items, choices, rids, o.deadline);
    var r := HoldAll(st, items, choices, rids, o.deadline);
    PendingKeepsBooks(r.snapshots, r.reservations, r.movements, orders, id, o);
    PlacedKeepsOrders(st.reservations, r.reservations, orders, id, o, items, choices, rids);
  }

  lemma PlacedOwns(t: Tables, store: Id, request: FinalizeRequest, fp: Fingerprint, at: Time, duration: int, f: Fresh)
    requires Placeable(t, store, request, fp, at, f)
    ensures var o := PlacedOrder(t, store, request, fp, at, duration, f);
            && Owns(o, ItemsOf(t, request.session), f.reservations)
            && o.status == Pending && o.version == 1 && o.createdAt == at && o.deadline == at + Confirmation(duration)
            && o.session == request.session && o.store == store && o.number == NextOf(t.sequences, store)
  {
    PlanInSnapshots(t, store, request);
  }

  lemma PlanReady(t: Tables, store: Id, request: FinalizeRequest, fp: Fingerprint, at: Time,
      f: Fresh) returns (lines: seq<Demand>)
    requires Placeable(t, store, request, fp, at, f)
    ensures f.order !in t.orders
    ensures HoldsReady(StockOf(t), ItemsOf(t, request.session), Accept(t, store, request).value.choices, f.reservations)
    ensures Demands(lines, ItemsOf(t, request.session)) && IsPlan(lines, t.snapshots, Accept(t, store, request).value.choices)
  {
    PlanInSnapshots(t, store, request);
    PlanOf(t, store, request);
    lines := DemandsOf(ItemsOf(t, request.session), Accept(t, store, request).value.cart.lines);
  }

  lemma PlacedKeepsStock(t: Tables, store: Id, request: FinalizeRequest, fp: Fingerprint, at: Time, duration: int,
      f: Fresh)
    requires Placeable(t, store, request, fp, at, f)
    requires StockOk(t) && OrdersOk(t.reservations, t.orders)
    ensures var o := PlacedOrder(t, store, request, fp, at, duration, f);
            var st := PlacedStock(t, store, request, fp, at, duration, f);
            && Balanced(st, t.orders[f.order := o])
            && OrdersOk(st.reservations, t.orders[f.order := o])
  {
    hide BooksOk, OrdersOk, Accept, IsPlan, HoldsReady, Demands, Owns, FreshFor, PlacedOrder, HoldAll;
    var lines := PlanReady(t, store, request, fp, at, f);
    PlacedOwns(t, store, request, fp, at, duration, f);
    HoldsKeepStock(StockOf(t), t.orders, lines, ItemsOf(t, request.session), Accept(t, store, request).value.choices, f.reservations,
                   f.order, PlacedOrder(t, store, request, fp, at, duration, f));
  }

  lemma PlacedCloses(t: Tables, store: Id, request: FinalizeRequest, fp: Fingerprint, at: Time, duration: int, f: Fresh)
    requires Placeable(t, store, request, fp, at, f)
    ensures var o := PlacedOrder(t, store, request, fp, at, duration, f);
            var t' := Placed(t, request, fp, PlacedStock(t, store, request, fp, at, duration, f), f.order, o);
            Closes(t, t', request, fp, f.order, o)
  {
    PlacedOwns(t, store, request, fp, at, duration, f);
  }

  lemma PlacedIds(t: Tables, store: Id, request: FinalizeRequest, fp: Fingerprint, at: Time, duration: int, f: Fresh)
    requires Placeable(t, store, request, fp, at, f)
    ensures PlacedStock(t, store, request, fp, at, duration, f).snapshots.Keys == t.snapshots.Keys
    ensures f.order != NO_ID && f.order !in t.orders && f.order !in t.timeline && f.order !in t.events && at != 0
  {
    PlanInSnapshots(t, store, request);
  }

  lemma NewOrderKeepsInv(t: Tables, t': Tables, request: FinalizeRequest, fp: Fingerprint, st: Stock, id: Id, o: Order)
    requires Closes(t, t', request, fp, id, o)
    requires StockOf(t') == st && st.snapshots.Keys == t.snapshots.Keys
    requires Balanced(st, t.orders[id := o]) && OrdersOk(st.reservations, t.orders[id := o])
    requires id != NO_ID && id !in t.timeline && id !in t.events && o.createdAt != 0
    requires o.status == Pending && o.version == 1
    requires t'.timeline == Append(t.timeline, id, TimelineRow(None, Pending, Records.Checkout, o.createdAt))
    requires t'.events == Append(t.events, id, OrderEvent(OrderCreated, o.version, Pending, o.createdAt))
    requires Inv(t)
    ensures Inv(t')
  {
    hide BooksOk, OrdersOk, TraceOk, CheckoutOk, MayClose;
    PlacedTrace(t, t', id, o);
    CloseKeepsCheckout(t, t', request, fp, id, o);
  }

  lemma PlacedKeepsInv(t: Tables, store: Id, request: FinalizeRequest, fp: Fingerprint, at: Time, duration: int,
      f: Fresh)
    requires Placeable(t, store, request, fp, at, f) && Inv(t)
    ensures var o := PlacedOrder(t, store, request, fp, at, duration, f);
            Inv(Placed(t, request, fp, PlacedStock(t, store, request, fp, at, duration, f), f.order, o))
  {
    var o := PlacedOrder(t, store, request, fp, at, duration, f);
    var st := PlacedStock(t, store, request, fp, at, duration, f);
    var t' := Placed(t, request, fp, st, f.order, o);
    PlacedOwns(t, store, request, fp, at, duration, f);
    PlacedIds(t, store, request, fp, at, duration, f);
    PlacedCloses(t, store, request, fp, at, duration, f);
    InvStock(t);
    hide Inv, BooksOk, StockOk, OrdersOk, Accept, PlacedOrder, PlacedStock, FreshFor, Closes, Owns;
    PlacedKeepsStock(t, store, request, fp, at, duration, f);
    NewOrderKeepsInv(t, t', request, fp, st, f.order, o);
  }

  lemma InvStock(t: Tables)
    requires Inv(t)
    ensures StockOk(t) && OrdersOk(t.reservations, t.orders)
  {
    hide BooksOk, OrdersOk, TraceOk, CheckoutOk;
  }

  // ---- Every attempt.

  /** The drawn identifiers are unused and there is one per line. */
  ghost predicate AttemptFresh(t: Tables, request: FinalizeRequest, f: Fresh) {
    request.session in t.sessions && t.sessions[request.session].cart in t.carts ==>
      FreshFor(t, f, |ItemsOf(t, request.session)|)
  }

  lemma PlaceOutcome(t: Tables, store: Id, request: FinalizeRequest, fp: Fingerprint, at: Time, duration: int, f: Fresh)
    requires Inv(t) && MayClose(t, request, fp) && SessionIn(t, store, request.session)
    requires AttemptFresh(t, request, f) && at != 0
    ensures var (t', r) := Place(t, store, request, fp, at, duration, f);
            && Inv(t') && (r.Err? ==> t' == t)
            && (r.Ok? ==> Placeable(t, store, request, fp, at, f))
            && (r.Ok? ==> r.value == PlacedOrder(t, store, request, fp, at, duration, f))
            && (r.Ok? ==> Closes(t, t', request, fp, f.order, r.value))
  {
    hide Inv;
    if Accept(t, store, request).Ok? {
      PlaceUnfolds(t, store, request, fp, at, duration, f);
      hide MayClose, FreshFor, Place, Accept, PlacedOrder, PlacedStock, Closes, Placed;
      PlacedKeepsInv(t, store, request, fp, at, duration, f);
      PlacedCloses(t, store, request, fp, at, duration, f);
    }
  }

  /** o is the stored order of the session. */
  predicate IsOrderOf(t: Tables, session: Id, o: Order) {
    && session in t.bySession && t.bySession[session] in t.orders
    && o == t.orders[t.bySession[session]] && o.session == session
  }

  /** A finalized session answers the request it was finalized with by its own order, and
      any other request by an idempotency conflict; nothing changes either way. */
  lemma ReplayExact(t: Tables, store: Id, request: FinalizeRequest, now: Time)
    requires Inv(t) && Finalized(t, request.session) && Opened(t, store, request, now).Ok?
    ensures var r := Replayed(t, store, request.session, Opened(t, store, request, now).value);
            var s := t.sessions[request.session];
            && (r.Ok? <==> s.address == Some(request.address) && s.email == Some(request.email))
            && (r.Err? ==> r.error == IdempotencyConflict)
            && (r.Ok? ==> IsOrderOf(t, request.session, r.value))
  {
    hide StockOk, OrdersOk, TraceOk, NumbersOk, CartsOk, NumberIndexOk;
    assert FinalizedOk(t, request.session);
    assert OrderIndexed(t, t.bySession[request.session]);
  }

  lemma FinalizeOutcome(t: Tables, store: Id, request: FinalizeRequest, now: Time, at: Time, duration: int, f: Fresh)
    requires Inv(t) && AttemptFresh(t, request, f) && at != 0
    ensures var (t', r) := FinalizeCheckout(t, store, request, now, at, duration, f);
            && Inv(t') && (r.Err? ==> t' == t)
            && (Finalized(t, request.session) ==> t' == t)
            && (r.Ok? ==> Opened(t, store, request, now).Ok?)
            && (r.Ok? && Finalized(t, request.session) ==>
                  r == Replayed(t, store, request.session, Opened(t, store, request, now).value))
            && (r.Ok? && !Finalized(t, request.session) ==>
                  Closes(t, t', request, Opened(t, store, request, now).value, f.order, r.value))
  {
    hide Inv;
    var fp := Opened(t, store, request, now);
    if fp.Ok? && t.sessions[request.session].status != SessionFinalized {
      OpenedMayClose(t, store, request, now);
      hide Opened, Place, MayClose, FreshFor, Closes;
      PlaceOutcome(t, store, request, fp.value, at, duration, f);
    }
  }

  /** The cart invariant error is unreachable, for evaluation as for finalize. */
  lemma CartInvariantHolds(t: Tables, store: Id, session: Id, now: Time)
    requires CheckoutOk(t)
    ensures LockFault(t, store, session, now) != Some(CheckoutCartInvariant)
  {
    hide IndexesOk, CartsOk, NumbersOk;
    if session in t.sessions && t.sessions[session].status == SessionFinalized {
      assert Finalized(t, session);
    }
  }
}
