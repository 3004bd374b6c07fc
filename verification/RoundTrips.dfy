/** What one order command undoes of another, counter by counter. */
module RoundTrips {
  import opened Base
  import opened Sums
  import opened Records
  import opened Inventory
  import opened Tables
  import opened Checkout
  import opened Ledger
  import opened Settlements
  import opened Holding
  import opened Finalize
  import opened Commands
  import opened Purchases

  ghost predicate SameCounters(a: Snapshot, b: Snapshot) {
    a.onHand == b.onHand && a.reserved == b.reserved
  }

  /** Stock rows after a settlement that went through. */
  lemma SettledStock(t: Tables, id: Id, d: Disposition, to: OrderStatus, actor: Authority, reason: Option<string>,
      now: Time)
    requires id in t.orders && Settle(t, id, d, to, actor, reason, now).1.Ok?
    ensures var t' := Settle(t, id, d, to, actor, reason, now).0;
            var ids := ItemReservations(t.orders[id].items);
            && t'.snapshots == SettledSnapshots(d, t.snapshots, t.reservations, ids, Touched(t.reservations, ids))
            && t'.reservations == Marked(t.reservations, ids, StatusAfter(d))
            && id in t'.orders && t'.orders[id] == MovedOrder(t.orders[id], to, reason, now)
  {
    hide SettleFault, SettledSnapshots, SettledMovements, Marked, Touched, Append, ItemReservations;
  }

  lemma QuantityMarked(res: Reservations, ids: set<Id>, st: ReservationStatus, s: Id)
    ensures QuantityOn(Marked(res, ids, st), ids, s) == QuantityOn(res, ids, s)
  {
    SumSame(ids, Weight(Marked(res, ids, st), s), Weight(res, s));
  }

  /** Cancelling after confirmation leaves every stock counter where cancelling at once
      would have left it: what confirmation consumed is put back exactly once. */
  lemma CancelEitherWay(t: Tables, store: Id, id: Id, now: Time, later: Time, s: Id)
    requires Named(t, store, id) && now != 0 && later != 0 && s in t.snapshots
    requires t.orders[id].status == Pending && now < t.orders[id].deadline
    requires Inv(t)
    ensures var confirmed := ConfirmOrder(t, store, id, now).0;
            var after := CancelConfirmedOrder(confirmed, store, id, Seller, None, later).0;
            var atOnce := CancelPendingOrder(t, store, id, Seller, None, now).0;
            && s in after.snapshots && s in atOnce.snapshots && SameCounters(after.snapshots[s], atOnce.snapshots[s])
            && after.snapshots[s].onHand == t.snapshots[s].onHand
            && after.snapshots[s].reserved == t.snapshots[s].reserved - QuantityOn(t.reservations, ItemReservations(t.orders[id].items), s)
  {
    hide Inv, Settle, SettledSnapshots, Touched, Marked, QuantityOn;
    var ids := ItemReservations(t.orders[id].items);
    ReadyFrom(t, id, Consume);
    SettleExact(t, id, Consume, Seller, t.orders[id].reason, now);
    SettledStock(t, id, Consume, Confirmed, Seller, t.orders[id].reason, now);
    SettledAt(Consume, t.snapshots, t.reservations, ids, s);
    var u := ConfirmOrder(t, store, id, now).0;
    ReadyFrom(u, id, Restock);
    SettleExact(u, id, Restock, Seller, None, later);
    SettledStock(u, id, Restock, Cancelled, Seller, None, later);
    SettledAt(Restock, u.snapshots, u.reservations, ids, s);
    QuantityMarked(t.reservations, ids, Consumed, s);
    ReadyFrom(t, id, Release);
    SettleExact(t, id, Release, Seller, None, now);
    SettledStock(t, id, Release, Cancelled, Seller, None, now);
    SettledAt(Release, t.snapshots, t.reservations, ids, s);
  }

  // ---- Finalize, then cancel.

  lemma {:induction false} HeldQuantity(lines: seq<Demand>, items: seq<CartItem>, choices: seq<Id>,
      rows: seq<Reservation>, s: Id)
    requires Demands(lines, items) && |items| == |choices| == |rows|
    requires forall i :: 0 <= i < |items| ==> rows[i].snapshot == choices[i] && rows[i].quantity == items[i].quantity
    ensures QuantityIn(rows, s) == Taken(lines, choices, s)
  {
    if items != [] {
      var n := |items| - 1;
      HeldQuantity(lines, items[..n], choices[..n], rows[..n], s);
    }
  }

  /** The reservations of the new order hold exactly what the plan took. */
  lemma HeldIsTaken(st: Stock, lines: seq<Demand>, items: seq<CartItem>, choices: seq<Id>, rids: seq<Id>,
      deadline: Time, s: Id)
    requires HoldsReady(st, items, choices, rids) && Demands(lines, items)
    ensures QuantityOn(HoldAll(st, items, choices, rids, deadline).reservations, Elements(rids), s) == Taken(lines, choices, s)
  {
    hide HoldAll, Taken, QuantityIn, QuantityOn;
    HeldRows(st, items, choices, rids, deadline);
    var res := HoldAll(st, items, choices, rids, deadline).reservations;
    var rows := seq(|rids|, i requires 0 <= i < |rids| => Reservation(choices[i], items[i].quantity, Held, Some(deadline)));
    forall i | 0 <= i < |rids| ensures rids[i] in res && rows[i] == res[rids[i]] {
      assert RowHeld(res, items, choices, rids, deadline, i);
    }
    HeldQuantity(lines, items, choices, rows, s);
    QuantityOnRows(res, rids, rows, s);
  }

  lemma OwnedIds(o: Order, items: seq<CartItem>, rids: seq<Id>)
    requires Owns(o, items, rids)
    ensures ItemReservations(o.items) == Elements(rids)
  {
    assert forall i :: 0 <= i < |rids| ==> o.items[i].reservation == rids[i];
  }

  /** A placement followed by a cancellation while pending gives back exactly what it
      took: every counter of every snapshot is as it was before the checkout. */
  lemma CancelUndoesCheckout(t: Tables, store: Id, request: FinalizeRequest, fp: Fingerprint, at: Time,
      duration: int, f: Fresh, now: Time, s: Id)
    requires Placeable(t, store, request, fp, at, f) && store != NO_ID && now != 0 && s in t.snapshots
    requires Place(t, store, request, fp, at, duration, f).1.Ok?
    requires Inv(t)
    ensures var placed := Place(t, store, request, fp, at, duration, f).0;
            var (after, r) := CancelPendingOrder(placed, store, f.order, Customer, None, now);
            r.Ok? && s in after.snapshots && SameCounters(after.snapshots[s], t.snapshots[s])
  {
    hide Inv, Settle, SettledSnapshots, Touched, Marked, QuantityOn, Place, PlacedOrder, PlacedStock, Taken, CancelPendingOrder;
    PlacedCommit(t, store, request, fp, at, duration, f);
    PlacedCounters(t, store, request, fp, at, duration, f, s);
    CancelReleases(Place(t, store, request, fp, at, duration, f).0, store, f.order, now, s);
  }

  lemma PlacedCommit(t: Tables, store: Id, request: FinalizeRequest, fp: Fingerprint, at: Time, duration: int, f: Fresh)
    requires Placeable(t, store, request, fp, at, f) && store != NO_ID
    requires Place(t, store, request, fp, at, duration, f).1.Ok?
    requires Inv(t)
    ensures var u := Place(t, store, request, fp, at, duration, f).0;
            var o := PlacedOrder(t, store, request, fp, at, duration, f);
            && Inv(u) && Named(u, store, f.order) && u.orders[f.order] == o && o.status == Pending
            && StockOf(u) == PlacedStock(t, store, request, fp, at, duration, f)
  {
    hide Inv, Place, PlacedOrder, PlacedStock, FreshFor, CreateFault, Owns, ClosedSession, Append;
    PlaceUnfolds(t, store, request, fp, at, duration, f);
    PlacedKeepsInv(t, store, request, fp, at, duration, f);
    PlacedOwns(t, store, request, fp, at, duration, f);
    PlacedIds(t, store, request, fp, at, duration, f);
  }

  lemma CancelReleases(u: Tables, store: Id, id: Id, now: Time, s: Id)
    requires Named(u, store, id) && now != 0 && s in u.snapshots && u.orders[id].status == Pending
    requires Inv(u)
    ensures var (after, r) := CancelPendingOrder(u, store, id, Customer, None, now);
            && r.Ok? && s in after.snapshots && after.snapshots[s].onHand == u.snapshots[s].onHand
            && after.snapshots[s].reserved == u.snapshots[s].reserved - QuantityOn(u.reservations, ItemReservations(u.orders[id].items), s)
  {
    hide Inv, Settle, SettledSnapshots, Touched, Marked, QuantityOn;
    ReadyFrom(u, id, Release);
    SettleExact(u, id, Release, Customer, None, now);
    SettledStock(u, id, Release, Cancelled, Customer, None, now);
    SettledAt(Release, u.snapshots, u.reservations, ItemReservations(u.orders[id].items), s);
  }

  lemma PlacedCounters(t: Tables, store: Id, request: FinalizeRequest, fp: Fingerprint, at: Time, duration: int,
      f: Fresh, s: Id)
    requires Placeable(t, store, request, fp, at, f) && s in t.snapshots
    ensures var o := PlacedOrder(t, store, request, fp, at, duration, f);
            var st := PlacedStock(t, store, request, fp, at, duration, f);
            && s in st.snapshots && st.snapshots[s].onHand == t.snapshots[s].onHand
            && st.snapshots[s].reserved == t.snapshots[s].reserved + QuantityOn(st.reservations, ItemReservations(o.items), s)
  {
    hide Accept, IsPlan, HoldAll, FreshFor, QuantityOn, Owns, ItemReservations, HoldsReady, Demands, NewOrder, Taken;
    var o := PlacedOrder(t, store, request, fp, at, duration, f);
    PlacedOwns(t, store, request, fp, at, duration, f);
    OwnedIds(o, ItemsOf(t, request.session), f.reservations);
    var lines := PlanReady(t, store, request, fp, at, f);
    HoldCounted(StockOf(t), lines, ItemsOf(t, request.session), Accept(t, store, request).value.choices, f.reservations, at + Confirmation(duration), s);
  }

  /** Holding moves the reserved counter by what the new reservations hold, and only it. */
  lemma HoldCounted(st: Stock, lines: seq<Demand>, items: seq<CartItem>, choices: seq<Id>, rids: seq<Id>,
      deadline: Time, s: Id)
    requires HoldsReady(st, items, choices, rids) && Demands(lines, items) && s in st.snapshots
    ensures var after := HoldAll(st, items, choices, rids, deadline);
            && after.snapshots[s].onHand == st.snapshots[s].onHand
            && after.snapshots[s].reserved == st.snapshots[s].reserved + QuantityOn(after.reservations, Elements(rids), s)
  {
    hide HoldAll, QuantityOn, Taken, HoldsReady;
    HeldCounters(st, lines, items, choices, rids, deadline, s);
    HeldIsTaken(st, lines, items, choices, rids, deadline, s);
  }
}
