/** In reachable tables no settlement fails closed, and every settlement keeps the ledger
    and the agreement of orders with their reservations. */
module Settlements {
  import opened Base
  import opened Sums
  import opened Records
  import opened Inventory
  import opened Tables
  import opened Ledger

  lemma {:induction false} ItemCount(items: seq<OrderItem>)
    requires forall i, j :: 0 <= i < j < |items| ==> items[i].reservation != items[j].reservation
    ensures |ItemReservations(items)| == |items|
  {
    if items != [] {
      var n := |items| - 1;
      ItemCount(items[..n]);
      assert ItemReservations(items) == ItemReservations(items[..n]) + {items[n].reservation} by {
        assert forall i :: 0 <= i < n ==> items[..n][i] == items[i];
        assert forall k :: k in ItemReservations(items) ==>
          k in ItemReservations(items[..n]) || k == items[n].reservation;
      }
      assert items[n].reservation !in ItemReservations(items[..n]);
    }
  }

  /** The rows found are the order's reservations, each once, in id order. */
  lemma FoundAll(res: Reservations, o: Order)
    requires OwnItems(o) && forall i :: 0 <= i < |o.items| ==> ItemOk(res, o, i)
    ensures ItemReservations(o.items) <= res.Keys
    ensures FoundRows(res, o) == LockedRows(res, SortedIds(ItemReservations(o.items)))
    ensures |FoundRows(res, o)| == |o.items|
  {
    var ids := ItemReservations(o.items);
    forall k | k in ids ensures k in res {
      var i :| 0 <= i < |o.items| && o.items[i].reservation == k;
      assert ItemOk(res, o, i);
    }
    assert ids * res.Keys == ids;
    ItemCount(o.items);
  }

  lemma HaveStatus(res: Reservations, o: Order, st: ReservationStatus)
    requires AllHave(res, o, st) && forall i :: 0 <= i < |o.items| ==> ItemOk(res, o, i)
    ensures AllStatus(res, ItemReservations(o.items), st)
    ensures forall k :: k in ItemReservations(o.items) ==> res[k].expiresAt == Some(o.deadline)
  {
    forall k | k in ItemReservations(o.items) ensures k in res && res[k].status == st && res[k].expiresAt == Some(o.deadline) {
      var i :| 0 <= i < |o.items| && o.items[i].reservation == k;
      assert ItemOk(res, o, i);
    }
  }

  lemma RowsHaveNoFault(res: Reservations, ids: set<Id>, d: Disposition, deadline: Time, now: Time)
    requires AllStatus(res, ids, StatusBefore(d)) && forall k :: k in ids ==> res[k].expiresAt == Some(deadline)
    requires d == Consume ==> now < deadline
    ensures FirstFault(d, LockedRows(res, SortedIds(ids)), deadline, now).None?
  {
    var sorted := SortedIds(ids);
    var rows := LockedRows(res, sorted);
    forall i | 0 <= i < |rows| ensures RowFault(d, rows[i], deadline, now).None? {
      assert sorted[i] in ids;
    }
    NoFault(d, rows, deadline, now);
  }

  lemma SortedElements(s: set<Id>)
    ensures Elements(SortedIds(s)) == s && Distinct(SortedIds(s))
  {
    SortedIdsSorted(s);
    AscendingDistinct(SortedIds(s));
    assert forall x :: x in Elements(SortedIds(s)) ==> x in s;
    assert forall x :: x in s ==> x in SortedIds(s);
  }

  lemma DeltaQuantity(res: Reservations, ids: set<Id>, s: Id)
    requires ids <= res.Keys
    ensures QuantityIn(LockedRows(res, SortedIds(ids)), s) == QuantityOn(res, ids, s)
  {
    SortedElements(ids);
    QuantityOnRows(res, SortedIds(ids), LockedRows(res, SortedIds(ids)), s);
  }

  lemma TouchedBy(res: Reservations, ids: set<Id>)
    requires ids <= res.Keys
    ensures SnapshotsOf(LockedRows(res, SortedIds(ids))) == Touched(res, ids)
  {
    var sorted := SortedIds(ids);
    SortedIdsSorted(ids);
    var rows := LockedRows(res, sorted);
    forall s | s in Touched(res, ids) ensures s in SnapshotsOf(rows) {
      var k :| k in ids && k in res && res[k].snapshot == s;
      assert k in sorted;
      var i :| 0 <= i < |sorted| && sorted[i] == k;
      assert rows[i].snapshot == s;
    }
    forall s | s in SnapshotsOf(rows) ensures s in Touched(res, ids) {
      var i :| 0 <= i < |rows| && rows[i].snapshot == s;
      assert sorted[i] in ids;
    }
  }

  lemma DeltaFits(d: Disposition, snaps: SnapshotTable, res: Reservations, ids: set<Id>, s: Id)
    requires ReservationsOk(snaps, res) && CountersOk(snaps, res) && AllStatus(res, ids, StatusBefore(d))
    requires s in Touched(res, ids)
    ensures DeltaFault(d, snaps, Delta(s, QuantityOn(res, ids, s))).None?
  {
    assert CountersAt(snaps, res, s);
    QuantityFits(d, snaps, res, ids, s);
  }

  lemma DeltasHaveNoMisfit(d: Disposition, snaps: SnapshotTable, res: Reservations, ids: set<Id>)
    requires ReservationsOk(snaps, res) && CountersOk(snaps, res) && AllStatus(res, ids, StatusBefore(d))
    ensures FirstMisfit(d, snaps, DeltasOf(LockedRows(res, SortedIds(ids)))).None?
  {
    var rows := LockedRows(res, SortedIds(ids));
    var deltas := DeltasOf(rows);
    TouchedBy(res, ids);
    forall i | 0 <= i < |deltas| ensures DeltaFault(d, snaps, deltas[i]).None? {
      DeltaQuantity(res, ids, deltas[i].snapshot);
      DeltaFits(d, snaps, res, ids, deltas[i].snapshot);
    }
    NoMisfit(d, snaps, deltas);
  }

  lemma FoundNoFault(res: Reservations, o: Order, d: Disposition, now: Time)
    requires OrderOk(res, o) && AllHave(res, o, StatusBefore(d))
    requires d == Consume ==> now < o.deadline
    ensures FirstFault(d, FoundRows(res, o), o.deadline, now).None?
  {
    FoundAll(res, o);
    HaveStatus(res, o, StatusBefore(d));
    RowsHaveNoFault(res, ItemReservations(o.items), d, o.deadline, now);
  }

  lemma FoundNoMisfit(snaps: SnapshotTable, res: Reservations, o: Order, d: Disposition)
    requires ReservationsOk(snaps, res) && CountersOk(snaps, res)
    requires OrderOk(res, o) && AllHave(res, o, StatusBefore(d))
    ensures FirstMisfit(d, snaps, DeltasOf(FoundRows(res, o))).None?
  {
    FoundAll(res, o);
    HaveStatus(res, o, StatusBefore(d));
    DeltasHaveNoMisfit(d, snaps, res, ItemReservations(o.items));
  }

  lemma NothingWrong(d: Disposition, snaps: SnapshotTable, rows: seq<Reservation>, expected: nat, deadline: Time,
      now: Time)
    requires |rows| == expected
    requires FirstFault(d, rows, deadline, now).None?
    requires FirstMisfit(d, snaps, DeltasOf(rows)).None?
    ensures RowsFault(d, snaps, rows, expected, deadline, now).None?
  {
  }

  lemma AllNamed(res: Reservations, o: Order)
    requires forall i :: 0 <= i < |o.items| ==> ItemOk(res, o, i)
    ensures NO_ID !in ItemReservations(o.items)
  {
    forall i | 0 <= i < |o.items| ensures o.items[i].reservation != NO_ID { assert ItemOk(res, o, i); }
  }

  /** The fail-closed branches are unreachable: an order whose reservations stand where
      its status says always settles. */
  lemma SettleSucceeds(snaps: SnapshotTable, res: Reservations, o: Order, d: Disposition, now: Time)
    requires ReservationsOk(snaps, res) && CountersOk(snaps, res)
    requires OrderOk(res, o) && AllHave(res, o, StatusBefore(d))
    requires d == Consume ==> now < o.deadline
    ensures SettleFault(snaps, res, o, d, now).None?
  {
    var rows := FoundRows(res, o);
    FoundAll(res, o);
    FoundNoFault(res, o, d, now);
    FoundNoMisfit(snaps, res, o, d);
    NothingWrong(d, snaps, rows, |o.items|, o.deadline, now);
    AllNamed(res, o);
  }

  // ---- Orders after a settlement.

  lemma MarkedOwn(res: Reservations, o: Order, o': Order, st: ReservationStatus)
    requires OrderOk(res, o) && o'.items == o.items && o'.deadline == o.deadline
    ensures OwnItems(o') && AllHave(Marked(res, ItemReservations(o.items), st), o', st)
    ensures forall i :: 0 <= i < |o'.items| ==> ItemOk(Marked(res, ItemReservations(o.items), st), o', i)
  {
    var res' := Marked(res, ItemReservations(o.items), st);
    forall i | 0 <= i < |o'.items| ensures ItemOk(res', o', i) && res'[o'.items[i].reservation].status == st {
      assert ItemOk(res, o, i);
      assert o.items[i].reservation in ItemReservations(o.items);
    }
  }

  lemma MarkedOther(res: Reservations, o: Order, ids: set<Id>, st: ReservationStatus)
    requires OrderOk(res, o) && ids !! ItemReservations(o.items)
    ensures OrderOk(Marked(res, ids, st), o)
  {
    var res' := Marked(res, ids, st);
    forall i | 0 <= i < |o.items|
      ensures ItemOk(res', o, i) && res'[o.items[i].reservation] == res[o.items[i].reservation]
    {
      assert ItemOk(res, o, i);
      assert o.items[i].reservation in ItemReservations(o.items);
    }
  }

  /** Only one order's reservations move, so every other order still agrees. */
  lemma SettledOrders(res: Reservations, orders: OrderTable, id: Id, o': Order, st: ReservationStatus)
    requires OrdersOk(res, orders) && id in orders
    requires o'.items == orders[id].items && o'.deadline == orders[id].deadline
    requires forall r: Reservations :: AllHave(r, o', st) ==> StatusAgrees(r, o')
    ensures OrdersOk(Marked(res, ItemReservations(o'.items), st), orders[id := o'])
  {
    var o := orders[id];
    var res' := Marked(res, ItemReservations(o.items), st);
    var orders' := orders[id := o'];
    forall k | k in orders' ensures OrderOk(res', orders'[k]) {
      if k == id {
        MarkedOwn(res, o, o', st);
      } else {
        MarkedOther(res, orders[k], ItemReservations(o.items), st);
      }
    }
    SameItemsUnshared(orders, id, o');
  }

  lemma SameItemsUnshared(orders: OrderTable, id: Id, o': Order)
    requires Unshared(orders) && id in orders && o'.items == orders[id].items
    ensures Unshared(orders[id := o'])
  {
    var orders' := orders[id := o'];
    forall a, b | a in orders' && b in orders' && a != b
      ensures ItemReservations(orders'[a].items) !! ItemReservations(orders'[b].items)
    {
      assert ItemReservations(orders[a].items) !! ItemReservations(orders[b].items);
    }
  }

  lemma CancelledGrows(orders: OrderTable, id: Id, o': Order)
    requires Unshared(orders) && id in orders && orders[id].status != Cancelled && o'.items == orders[id].items
    ensures ItemReservations(o'.items) !! CancelledReservations(orders)
    ensures CancelledReservations(orders[id := o']) ==
            CancelledReservations(orders) + if o'.status == Cancelled then ItemReservations(o'.items) else {}
  {
    var orders' := orders[id := o'];
    forall k | k in CancelledReservations(orders) ensures k !in ItemReservations(o'.items) {
      var a, i :| a in orders && orders[a].status == Cancelled && 0 <= i < |orders[a].items| && orders[a].items[i].reservation == k;
      assert ItemReservations(orders[a].items) !! ItemReservations(orders[id].items);
      assert k in ItemReservations(orders[a].items);
    }
    forall k ensures k in CancelledReservations(orders') <==>
      k in CancelledReservations(orders) || (o'.status == Cancelled && k in ItemReservations(o'.items))
    {
      if k in CancelledReservations(orders') {
        var a, i :| a in orders' && orders'[a].status == Cancelled && 0 <= i < |orders'[a].items| && orders'[a].items[i].reservation == k;
        if a != id { assert orders[a] == orders'[a]; }
      }
      if k in CancelledReservations(orders) {
        var a, i :| a in orders && orders[a].status == Cancelled && 0 <= i < |orders[a].items| && orders[a].items[i].reservation == k;
        assert a in orders' && orders'[a] == orders[a];
      }
      if o'.status == Cancelled && k in ItemReservations(o'.items) {
        var i :| 0 <= i < |o'.items| && o'.items[i].reservation == k;
        assert orders'[id] == o';
      }
    }
  }
}
