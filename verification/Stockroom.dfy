/** Writers of stock outside orders, and the holds of a checkout, keep the ledger. */
module Stockroom {
  import opened Base
  import opened Sums
  import opened Money
  import opened Records
  import opened Inventory
  import opened Tables
  import opened Ledger

  // ---- A reservation row that is new.

  lemma NewRowAway(res: Reservations, k: Id, r: Reservation, keys: set<Id>, s: Id, st: ReservationStatus)
    requires k !in keys
    ensures Sum(keys, StatusWeight(res[k := r], s, st)) == Sum(keys, StatusWeight(res, s, st))
  {
    SumSame(keys, StatusWeight(res[k := r], s, st), StatusWeight(res, s, st));
  }

  lemma HeldAdded(res: Reservations, k: Id, r: Reservation, s: Id)
    requires k !in res && r.status == Held
    ensures HeldOn(res[k := r], s) == HeldOn(res, s) + if r.snapshot == s then r.quantity else 0
  {
    var res' := res[k := r];
    assert res'.Keys - {k} == res.Keys;
    SumPick(res'.Keys, StatusWeight(res', s, Held), k);
    NewRowAway(res, k, r, res.Keys, s, Held);
  }

  lemma LiveAdded(res: Reservations, orders: OrderTable, k: Id, r: Reservation, s: Id)
    requires k !in res && r.status == Held
    ensures LiveConsumed(res[k := r], orders, s) == LiveConsumed(res, orders, s)
  {
    var res' := res[k := r];
    var gone := CancelledReservations(orders);
    NewRowAway(res, k, r, res.Keys - gone, s, Consumed);
    if k in gone {
      assert res'.Keys - gone == res.Keys - gone;
    } else {
      assert res'.Keys - gone - {k} == res.Keys - gone;
      SumPick(res'.Keys - gone, StatusWeight(res', s, Consumed), k);
    }
  }

  lemma LogKept(log: MovementTable, log': MovementTable, id: Id, m: Movement, s: Id)
    requires log' == log || log' == Append(log, id, m)
    requires m.delta == 0 && !m.kind.Adjusted?
    ensures MovedBy(RowsAt(log', s)) == MovedBy(RowsAt(log, s))
    ensures AdjustedBy(RowsAt(log', s)) == AdjustedBy(RowsAt(log, s))
  {
    MovedByAppend(RowsAt(log, id), m);
  }

  lemma HoldCounterAt(snaps: SnapshotTable, res: Reservations, id: Id, k: Id, r: Reservation, s: Id)
    requires id in snaps && 0 < r.quantity <= Available(snaps[id]) && k !in res && r.status == Held && r.snapshot == id
    requires s in snaps && CountersAt(snaps, res, s)
    ensures CountersAt(snaps[id := ReservedRow(snaps[id], r.quantity)], res[k := r], s)
  {
    HeldAdded(res, k, r, s);
  }

  lemma HoldHistoryAt(snaps: SnapshotTable, res: Reservations, log: MovementTable, orders: OrderTable,
                      id: Id, k: Id, r: Reservation, log': MovementTable, m: Movement, s: Id)
    requires id in snaps && k !in res && r.status == Held
    requires m.delta == 0 && !m.kind.Adjusted? && (log' == log || log' == Append(log, id, m))
    requires s in snaps && HistoryAt(snaps, log, res, orders, s)
    ensures HistoryAt(snaps[id := ReservedRow(snaps[id], r.quantity)], log', res[k := r], orders, s)
  {
    LiveAdded(res, orders, k, r, s);
    LogKept(log, log', id, m, s);
  }

  /** A hold on one snapshot keeps the ledger, with or without its movement row. */
  lemma HoldKeepsBooks(snaps: SnapshotTable, res: Reservations, log: MovementTable, orders: OrderTable,
                       id: Id, k: Id, r: Reservation, log': MovementTable, m: Movement)
    requires BooksOk(snaps, res, log, orders)
    requires id in snaps && 0 < r.quantity <= Available(snaps[id]) && k !in res && r.status == Held && r.snapshot == id
    requires m.delta == 0 && !m.kind.Adjusted? && (log' == log || log' == Append(log, id, m))
    ensures BooksOk(snaps[id := ReservedRow(snaps[id], r.quantity)], res[k := r], log', orders)
  {
    hide CountersAt, HistoryAt;
    var snaps' := snaps[id := ReservedRow(snaps[id], r.quantity)];
    forall s | s in snaps' ensures CountersAt(snaps', res[k := r], s) {
      HoldCounterAt(snaps, res, id, k, r, s);
    }
    forall s | s in snaps' ensures HistoryAt(snaps', log', res[k := r], orders, s) {
      HoldHistoryAt(snaps, res, log, orders, id, k, r, log', m, s);
    }
  }

  ghost predicate SameRows(res: Reservations, res': Reservations) {
    res.Keys <= res'.Keys && forall k :: k in res ==> res'[k] == res[k]
  }

  lemma SameAllHave(res: Reservations, res': Reservations, o: Order, st: ReservationStatus)
    requires SameRows(res, res') && forall i :: 0 <= i < |o.items| ==> ItemOk(res, o, i)
    ensures AllHave(res', o, st) == AllHave(res, o, st)
  {
    forall i | 0 <= i < |o.items| ensures o.items[i].reservation in res { assert ItemOk(res, o, i); }
  }

  /** Orders do not notice reservations they do not own. */
  lemma MoreRowsKeepOrder(res: Reservations, res': Reservations, o: Order)
    requires OrderOk(res, o) && SameRows(res, res')
    ensures OrderOk(res', o)
  {
    hide AllHave;
    forall st: ReservationStatus { SameAllHave(res, res', o, st); }
    forall i | 0 <= i < |o.items| ensures ItemOk(res', o, i) { assert ItemOk(res, o, i); }
  }

  lemma MoreRowsKeepOrders(res: Reservations, res': Reservations, orders: OrderTable)
    requires OrdersOk(res, orders) && SameRows(res, res')
    ensures OrdersOk(res', orders)
  {
    forall id | id in orders ensures OrderOk(res', orders[id]) { MoreRowsKeepOrder(res, res', orders[id]); }
  }

  // ---- Snapshots come and change.

  lemma NothingOn(snaps: SnapshotTable, res: Reservations, orders: OrderTable, s: Id)
    requires ReservationsOk(snaps, res) && s !in snaps
    ensures HeldOn(res, s) == 0 && LiveConsumed(res, orders, s) == 0
  {
    SumZero(res.Keys, StatusWeight(res, s, Held));
    SumZero(res.Keys - CancelledReservations(orders), StatusWeight(res, s, Consumed));
  }

  lemma CreateKeepsBooks(snaps: SnapshotTable, res: Reservations, log: MovementTable, orders: OrderTable, id: Id,
      row: Snapshot)
    requires BooksOk(snaps, res, log, orders) && id !in snaps
    requires row.onHand == row.initial >= 0 && row.reserved == 0
    ensures BooksOk(snaps[id := row], res, log, orders)
  {
    var snaps' := snaps[id := row];
    NothingOn(snaps, res, orders, id);
    forall s | s in snaps' ensures CountersAt(snaps', res, s) && HistoryAt(snaps', log, res, orders, s) {
      if s != id { assert CountersAt(snaps, res, s) && HistoryAt(snaps, log, res, orders, s); }
    }
  }

  lemma AdjustHistoryAt(snaps: SnapshotTable, res: Reservations, log: MovementTable, orders: OrderTable, id: Id,
      delta: int, m: Movement, s: Id)
    requires id in snaps && m.kind.Adjusted? && m.delta == delta
    requires s in snaps && HistoryAt(snaps, log, res, orders, s)
    ensures HistoryAt(snaps[id := AdjustedRow(snaps[id], delta)], Append(log, id, m), res, orders, s)
  {
    MovedByAppend(RowsAt(log, id), m);
  }

  lemma AdjustKeepsBooks(snaps: SnapshotTable, res: Reservations, log: MovementTable, orders: OrderTable, id: Id,
      delta: int, m: Movement)
    requires BooksOk(snaps, res, log, orders) && id in snaps && m.kind.Adjusted? && m.delta == delta
    requires snaps[id].reserved <= snaps[id].onHand + delta
    ensures BooksOk(snaps[id := AdjustedRow(snaps[id], delta)], res, Append(log, id, m), orders)
  {
    hide HistoryAt;
    var snaps' := snaps[id := AdjustedRow(snaps[id], delta)];
    forall s | s in snaps' ensures CountersAt(snaps', res, s) { assert CountersAt(snaps, res, s); }
    forall s | s in snaps' ensures HistoryAt(snaps', Append(log, id, m), res, orders, s) {
      AdjustHistoryAt(snaps, res, log, orders, id, delta, m, s);
    }
  }
}
