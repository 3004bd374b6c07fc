/** Conservation of stock: what the counters of a snapshot always mean. */
module Ledger {
  import opened Base
  import opened Sums
  import opened Records
  import opened Inventory
  import opened Tables

  type SnapshotTable = map<Id, Snapshot>
  type MovementTable = map<Id, seq<Movement>>
  type OrderTable = map<Id, Order>

  // ---- What the rows say.

  ghost function StatusWeight(res: Reservations, s: Id, status: ReservationStatus): Id -> int {
    k => if k in res && res[k].snapshot == s && res[k].status == status then res[k].quantity else 0
  }

  /** Units of snapshot s in held reservations. */
  ghost function HeldOn(res: Reservations, s: Id): int {
    Sum(res.Keys, StatusWeight(res, s, Held))
  }

  /** Reservations of cancelled orders: their consumed stock has been put back. */
  ghost function CancelledReservations(orders: OrderTable): set<Id> {
    set id, i | id in orders && orders[id].status == Cancelled && 0 <= i < |orders[id].items|
      :: orders[id].items[i].reservation
  }

  /** Units of s consumed by orders that were not cancelled afterwards. */
  ghost function LiveConsumed(res: Reservations, orders: OrderTable, s: Id): int {
    Sum(res.Keys - CancelledReservations(orders), StatusWeight(res, s, Consumed))
  }

  function MovedBy(rows: seq<Movement>): int {
    if rows == [] then 0 else MovedBy(rows[..|rows| - 1]) + rows[|rows| - 1].delta
  }

  function AdjustedBy(rows: seq<Movement>): int {
    if rows == [] then 0
    else AdjustedBy(rows[..|rows| - 1]) +
         if rows[|rows| - 1].kind.Adjusted? then rows[|rows| - 1].delta else 0
  }

  lemma MovedByAppend(rows: seq<Movement>, m: Movement)
    ensures MovedBy(rows + [m]) == MovedBy(rows) + m.delta
    ensures AdjustedBy(rows + [m]) == AdjustedBy(rows) + if m.kind.Adjusted? then m.delta else 0
  {
    assert (rows + [m])[..|rows|] == rows;
  }

  // ---- The ledger.

  ghost predicate ReservationsOk(snaps: SnapshotTable, res: Reservations) {
    forall k :: k in res ==> res[k].quantity > 0 && res[k].snapshot in snaps
  }

  ghost predicate CountersAt(snaps: SnapshotTable, res: Reservations, s: Id)
    requires s in snaps
  {
    0 <= snaps[s].reserved <= snaps[s].onHand && snaps[s].reserved == HeldOn(res, s)
  }

  /** 0 <= reserved <= on hand, and reserved is the sum of the held reservations. */
  ghost predicate CountersOk(snaps: SnapshotTable, res: Reservations) {
    forall s :: s in snaps ==> CountersAt(snaps, res, s)
  }

  ghost predicate HistoryAt(snaps: SnapshotTable, log: MovementTable, res: Reservations, orders: OrderTable, s: Id)
    requires s in snaps
  {
    && snaps[s].onHand == snaps[s].initial + MovedBy(RowsAt(log, s))
    && snaps[s].onHand == snaps[s].initial + AdjustedBy(RowsAt(log, s)) - LiveConsumed(res, orders, s)
  }

  /** On hand is the initial quantity plus every movement; equivalently the initial
      quantity plus adjustments minus the consumption of orders not cancelled. */
  ghost predicate HistoryOk(snaps: SnapshotTable, log: MovementTable, res: Reservations, orders: OrderTable) {
    forall s :: s in snaps ==> HistoryAt(snaps, log, res, orders, s)
  }

  /** Movement rows exist only for existing snapshots. */
  ghost predicate LogOk(snaps: SnapshotTable, log: MovementTable) {
    log.Keys <= snaps.Keys
  }

  ghost predicate BooksOk(snaps: SnapshotTable, res: Reservations, log: MovementTable, orders: OrderTable) {
    && ReservationsOk(snaps, res)
    && CountersOk(snaps, res)
    && HistoryOk(snaps, log, res, orders)
    && LogOk(snaps, log)
  }

  ghost predicate StockOk(t: Tables) {
    BooksOk(t.snapshots, t.reservations, t.movements, t.orders)
  }

  // ---- Orders and their reservations.

  ghost predicate AllHave(res: Reservations, o: Order, status: ReservationStatus) {
    forall i :: 0 <= i < |o.items| && o.items[i].reservation in res ==> res[o.items[i].reservation].status == status
  }

  ghost predicate StatusAgrees(res: Reservations, o: Order) {
    match o.status
    case Pending => AllHave(res, o, Held)
    case Confirmed => AllHave(res, o, Consumed)
    case Processing => AllHave(res, o, Consumed)
    case ReadyForShipping => AllHave(res, o, Consumed)
    case Cancelled => AllHave(res, o, Released) || AllHave(res, o, Expired) || AllHave(res, o, Consumed)
    case _ => false
  }

  ghost predicate ItemOk(res: Reservations, o: Order, i: nat)
    requires i < |o.items|
  {
    && o.items[i].reservation != NO_ID && o.items[i].reservation in res
    && res[o.items[i].reservation].quantity == o.items[i].quantity
    && res[o.items[i].reservation].expiresAt == Some(o.deadline)
  }

  ghost predicate OwnItems(o: Order) {
    && o.items != []
    && forall i, j :: 0 <= i < j < |o.items| ==> o.items[i].reservation != o.items[j].reservation
  }

  ghost predicate OrderOk(res: Reservations, o: Order) {
    && OwnItems(o)
    && (forall i :: 0 <= i < |o.items| ==> ItemOk(res, o, i))
    && StatusAgrees(res, o)
  }

  ghost predicate Unshared(orders: OrderTable) {
    forall a, b :: a in orders && b in orders && a != b ==>
      ItemReservations(orders[a].items) !! ItemReservations(orders[b].items)
  }

  ghost predicate OrdersOk(res: Reservations, orders: OrderTable) {
    && (forall id :: id in orders ==> OrderOk(res, orders[id]))
    && Unshared(orders)
  }

  // ---- Sums under a change of status of some reservations.

  ghost predicate AllStatus(res: Reservations, ids: set<Id>, status: ReservationStatus) {
    ids <= res.Keys && forall k :: k in ids ==> res[k].status == status
  }

  /** Marking ids moves exactly their quantity out of, or into, a status. */
  lemma MarkedSum(res: Reservations, ids: set<Id>, from: ReservationStatus, to: ReservationStatus, s: Id,
      st: ReservationStatus, keys: set<Id>)
    requires AllStatus(res, ids, from) && ids <= keys <= res.Keys
    ensures Sum(keys, StatusWeight(Marked(res, ids, to), s, st)) ==
            Sum(keys, StatusWeight(res, s, st))
            + (if to == st then QuantityOn(res, ids, s) else 0)
            - (if from == st then QuantityOn(res, ids, s) else 0)
  {
    var res' := Marked(res, ids, to);
    SumSplit(keys, ids, StatusWeight(res, s, st));
    SumSplit(keys, ids, StatusWeight(res', s, st));
    SumSame(keys - ids, StatusWeight(res, s, st), StatusWeight(res', s, st));
    StatusPart(res, ids, from, s, st);
    MarkedPart(res, ids, to, s, st);
  }

  lemma StatusPart(res: Reservations, ids: set<Id>, from: ReservationStatus, s: Id, st: ReservationStatus)
    requires AllStatus(res, ids, from)
    ensures Sum(ids, StatusWeight(res, s, st)) == if from == st then QuantityOn(res, ids, s) else 0
  {
    if from == st {
      SumSame(ids, StatusWeight(res, s, st), Weight(res, s));
    } else {
      SumZero(ids, StatusWeight(res, s, st));
    }
  }

  lemma MarkedPart(res: Reservations, ids: set<Id>, to: ReservationStatus, s: Id, st: ReservationStatus)
    requires ids <= res.Keys
    ensures Sum(ids, StatusWeight(Marked(res, ids, to), s, st)) == if to == st then QuantityOn(res, ids, s) else 0
  {
    if to == st {
      SumSame(ids, StatusWeight(Marked(res, ids, to), s, st), Weight(res, s));
    } else {
      SumZero(ids, StatusWeight(Marked(res, ids, to), s, st));
    }
  }

  lemma QuantityBounded(snaps: SnapshotTable, res: Reservations, ids: set<Id>, s: Id)
    requires ReservationsOk(snaps, res) && AllStatus(res, ids, Held)
    ensures 0 <= QuantityOn(res, ids, s) <= HeldOn(res, s)
  {
    SumSplit(res.Keys, ids, StatusWeight(res, s, Held));
    StatusPart(res, ids, Held, s, Held);
    SumNonNegative(res.Keys - ids, StatusWeight(res, s, Held));
    SumNonNegative(ids, Weight(res, s));
  }

  // ---- Settlement keeps the ledger.

  lemma SettledAt(d: Disposition, snaps: SnapshotTable, res: Reservations, ids: set<Id>, s: Id)
    requires s in snaps
    ensures s in SettledSnapshots(d, snaps, res, ids, Touched(res, ids))
    ensures var s' := SettledSnapshots(d, snaps, res, ids, Touched(res, ids))[s];
            var q := QuantityOn(res, ids, s);
            && s'.initial == snaps[s].initial
            && s'.reserved == snaps[s].reserved - (if d == Restock then 0 else q)
            && s'.onHand == snaps[s].onHand - (if d == Consume then q else if d == Restock then -q else 0)
  {
    if s !in Touched(res, ids) { QuantityOnUntouched(res, ids, s); }
  }

  lemma HeldAfter(d: Disposition, res: Reservations, ids: set<Id>, s: Id)
    requires AllStatus(res, ids, StatusBefore(d))
    ensures HeldOn(Marked(res, ids, StatusAfter(d)), s) ==
            HeldOn(res, s) - if d == Restock then 0 else QuantityOn(res, ids, s)
  {
    assert Marked(res, ids, StatusAfter(d)).Keys == res.Keys;
    MarkedSum(res, ids, StatusBefore(d), StatusAfter(d), s, Held, res.Keys);
  }

  lemma QuantityFits(d: Disposition, snaps: SnapshotTable, res: Reservations, ids: set<Id>, s: Id)
    requires ReservationsOk(snaps, res) && AllStatus(res, ids, StatusBefore(d))
    ensures 0 <= QuantityOn(res, ids, s)
    ensures d != Restock ==> QuantityOn(res, ids, s) <= HeldOn(res, s)
  {
    if d == Restock {
      SumNonNegative(ids, Weight(res, s));
    } else {
      QuantityBounded(snaps, res, ids, s);
    }
  }

  lemma SettledCounterAt(d: Disposition, snaps: SnapshotTable, res: Reservations, ids: set<Id>, s: Id)
    requires ReservationsOk(snaps, res) && AllStatus(res, ids, StatusBefore(d))
    requires s in snaps && CountersAt(snaps, res, s)
    ensures s in SettledSnapshots(d, snaps, res, ids, Touched(res, ids))
    ensures CountersAt(SettledSnapshots(d, snaps, res, ids, Touched(res, ids)), Marked(res, ids, StatusAfter(d)), s)
  {
    SettledAt(d, snaps, res, ids, s);
    HeldAfter(d, res, ids, s);
    QuantityFits(d, snaps, res, ids, s);
  }

  lemma SettledCounters(d: Disposition, snaps: SnapshotTable, res: Reservations, ids: set<Id>)
    requires ReservationsOk(snaps, res) && CountersOk(snaps, res) && AllStatus(res, ids, StatusBefore(d))
    ensures CountersOk(SettledSnapshots(d, snaps, res, ids, Touched(res, ids)), Marked(res, ids, StatusAfter(d)))
  {
    forall s | s in snaps
      ensures CountersAt(SettledSnapshots(d, snaps, res, ids, Touched(res, ids)), Marked(res, ids, StatusAfter(d)), s)
    {
      SettledCounterAt(d, snaps, res, ids, s);
    }
  }

  lemma SettledMoved(d: Disposition, snaps: SnapshotTable, log: MovementTable, res: Reservations, ids: set<Id>, s: Id)
    requires s in snaps
    ensures var log' := SettledMovements(d, log, snaps, res, ids, Touched(res, ids));
            var q := QuantityOn(res, ids, s);
            && MovedBy(RowsAt(log', s)) == MovedBy(RowsAt(log, s)) - (if d == Consume then q else if d == Restock then -q else 0)
            && AdjustedBy(RowsAt(log', s)) == AdjustedBy(RowsAt(log, s))
  {
    var q := QuantityOn(res, ids, s);
    if s in Touched(res, ids) {
      MovedByAppend(RowsAt(log, s), MovementFor(d, q, SettledRow(d, snaps[s], q)));
    } else {
      QuantityOnUntouched(res, ids, s);
    }
  }

  /** Effect of the step on the consumption of orders not cancelled. */
  lemma SettledLive(d: Disposition, res: Reservations, orders: OrderTable, orders': OrderTable, ids: set<Id>, s: Id)
    requires AllStatus(res, ids, StatusBefore(d)) && ids !! CancelledReservations(orders)
    requires CancelledReservations(orders') == CancelledReservations(orders) + if d == Consume then {} else ids
    ensures LiveConsumed(Marked(res, ids, StatusAfter(d)), orders', s) ==
            LiveConsumed(res, orders, s) + (if d == Consume then QuantityOn(res, ids, s) else if d == Restock then -QuantityOn(res, ids, s) else 0)
  {
    var res' := Marked(res, ids, StatusAfter(d));
    assert res'.Keys == res.Keys;
    var live := res.Keys - CancelledReservations(orders);
    if d == Consume {
      assert res'.Keys - CancelledReservations(orders') == live;
      MarkedSum(res, ids, Held, Consumed, s, Consumed, live);
    } else {
      assert res'.Keys - CancelledReservations(orders') == live - ids;
      SumSplit(live, ids, StatusWeight(res, s, Consumed));
      StatusPart(res, ids, StatusBefore(d), s, Consumed);
      SumSame(live - ids, StatusWeight(res, s, Consumed), StatusWeight(res', s, Consumed));
    }
  }

  lemma SettledHistory(d: Disposition, snaps: SnapshotTable, log: MovementTable, res: Reservations,
      orders: OrderTable, orders': OrderTable, ids: set<Id>)
    requires HistoryOk(snaps, log, res, orders)
    requires AllStatus(res, ids, StatusBefore(d)) && ids !! CancelledReservations(orders)
    requires CancelledReservations(orders') == CancelledReservations(orders) + if d == Consume then {} else ids
    ensures HistoryOk(SettledSnapshots(d, snaps, res, ids, Touched(res, ids)),
                      SettledMovements(d, log, snaps, res, ids, Touched(res, ids)),
                      Marked(res, ids, StatusAfter(d)), orders')
  {
    var snaps' := SettledSnapshots(d, snaps, res, ids, Touched(res, ids));
    var log' := SettledMovements(d, log, snaps, res, ids, Touched(res, ids));
    forall s | s in snaps' ensures HistoryAt(snaps', log', Marked(res, ids, StatusAfter(d)), orders', s) {
      assert HistoryAt(snaps, log, res, orders, s);
      SettledAt(d, snaps, res, ids, s);
      SettledMoved(d, snaps, log, res, ids, s);
      SettledLive(d, res, orders, orders', ids, s);
    }
  }
}
