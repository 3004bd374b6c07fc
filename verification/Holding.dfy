/** The holds of a checkout: every one succeeds, and together they take exactly the plan. */
module Holding {
  import opened Base
  import opened Money
  import opened Records
  import opened Inventory
  import opened Tables
  import opened Checkout
  import opened Ledger
  import opened Stockroom

  ghost predicate Demands(lines: seq<Demand>, items: seq<CartItem>) {
    |items| <= |lines| && forall i :: 0 <= i < |items| ==> lines[i].quantity == items[i].quantity
  }

  ghost predicate HoldsReady(st: Stock, items: seq<CartItem>, choices: seq<Id>, rids: seq<Id>) {
    && |items| == |choices| == |rids|
    && (forall i :: 0 <= i < |choices| ==> choices[i] in st.snapshots)
    && Distinct(rids) && (forall i :: 0 <= i < |rids| ==> rids[i] !in st.reservations)
  }

  ghost predicate RowHeld(res: Reservations, items: seq<CartItem>, choices: seq<Id>, rids: seq<Id>, deadline: Time,
      i: nat)
    requires i < |items| == |choices| == |rids|
  {
    rids[i] in res && res[rids[i]] == Reservation(choices[i], items[i].quantity, Held, Some(deadline))
  }

  /** Each line gets its own held reservation, and no other reservation changes. */
  lemma {:induction false} HeldRows(st: Stock, items: seq<CartItem>, choices: seq<Id>, rids: seq<Id>, deadline: Time)
    requires HoldsReady(st, items, choices, rids)
    ensures var r := HoldAll(st, items, choices, rids, deadline);
            && SameRows(st.reservations, r.reservations)
            && r.reservations.Keys == st.reservations.Keys + Elements(rids)
            && forall i :: 0 <= i < |items| ==> RowHeld(r.reservations, items, choices, rids, deadline, i)
  {
    if items != [] {
      var n := |items| - 1;
      HeldRows(st, items[..n], choices[..n], rids[..n], deadline);
      var before := HoldAll(st, items[..n], choices[..n], rids[..n], deadline).reservations;
      var after := HoldAll(st, items, choices, rids, deadline).reservations;
      DropLast(rids);
      assert rids[n] !in Elements(rids[..n]);
      forall i | 0 <= i < |items| ensures RowHeld(after, items, choices, rids, deadline, i) {
        if i < n { assert RowHeld(before, items[..n], choices[..n], rids[..n], deadline, i); }
      }
    }
  }

  /** Reserved grows by the planned total; nothing else of a snapshot does. */
  lemma {:induction false} HeldCounters(
    st: Stock, lines: seq<Demand>, items: seq<CartItem>, choices: seq<Id>, rids: seq<Id>, deadline: Time, s: Id)
    requires HoldsReady(st, items, choices, rids) && Demands(lines, items) && s in st.snapshots
    ensures var a := st.snapshots[s];
            var b := HoldAll(st, items, choices, rids, deadline).snapshots[s];
            && b.reserved == a.reserved + Taken(lines, choices, s)
            && b.onHand == a.onHand && b.initial == a.initial && b.location == a.location && b.sku == a.sku
  {
    if items != [] {
      var n := |items| - 1;
      HeldCounters(st, lines, items[..n], choices[..n], rids[..n], deadline, s);
    }
  }

  // ---- The movement rows of the holds.

  /** Quantities of the lines placed on snapshot s, in line order. */
  ghost function QuantitiesOn(items: seq<CartItem>, choices: seq<Id>, s: Id): seq<int>
    requires |items| == |choices|
  {
    if items == [] then []
    else
      var n := |items| - 1;
      var before := QuantitiesOn(items[..n], choices[..n], s);
      if choices[n] == s then before + [items[n].quantity] else before
  }

  function Units(q: seq<int>): int {
    if q == [] then 0 else Units(q[..|q| - 1]) + q[|q| - 1]
  }

  /** One held row per quantity taken, each with the counters it left. */
  ghost function Journal(a: Snapshot, q: seq<int>): seq<Movement> {
    if q == [] then []
    else Journal(a, q[..|q| - 1]) + [Movement(ReservationHeld, 0, a.onHand, a.reserved + Units(q))]
  }

  /** Reserved and version move with the rows, nothing else of the snapshot does. */
  ghost predicate Journaled(a: Snapshot, rows: seq<Movement>, b: Snapshot, rows': seq<Movement>, q: seq<int>) {
    b == a.(reserved := a.reserved + Units(q), version := a.version + |q|) && rows' == rows + Journal(a, q)
  }

  lemma JournalGrows(a: Snapshot, rows: seq<Movement>, b: Snapshot, rows': seq<Movement>, q: seq<int>, x: int)
    requires Journaled(a, rows, b, rows', q)
    ensures var c := ReservedRow(b, x);
            Journaled(a, rows, c, rows' + [Movement(ReservationHeld, 0, c.onHand, c.reserved)], q + [x])
  {
    assert (q + [x])[..|q|] == q;
  }

  lemma {:induction false} HeldJournal(st: Stock, items: seq<CartItem>, choices: seq<Id>, rids: seq<Id>, deadline: Time, s: Id)
    requires HoldsReady(st, items, choices, rids) && s in st.snapshots
    ensures var r := HoldAll(st, items, choices, rids, deadline);
            Journaled(st.snapshots[s], RowsAt(st.movements, s), r.snapshots[s], RowsAt(r.movements, s), QuantitiesOn(items, choices, s))
  {
    hide Journaled, Units;
    if items == [] {
      JournalEmpty(st.snapshots[s], RowsAt(st.movements, s));
    } else {
      var n := |items| - 1;
      HeldJournal(st, items[..n], choices[..n], rids[..n], deadline, s);
      var b := HoldAll(st, items[..n], choices[..n], rids[..n], deadline);
      if choices[n] == s {
        JournalGrows(st.snapshots[s], RowsAt(st.movements, s), b.snapshots[s], RowsAt(b.movements, s),
                     QuantitiesOn(items[..n], choices[..n], s), items[n].quantity);
      }
    }
  }

  lemma JournalEmpty(a: Snapshot, rows: seq<Movement>)
    ensures Journaled(a, rows, a, rows, [])
  {
  }

  lemma PlanStep(lines: seq<Demand>, rows: map<Id, Snapshot>, choices: seq<Id>, n: nat)
    requires IsPlan(lines, rows, choices) && n < |choices|
    ensures choices[n] in rows && lines[n].quantity > 0
    ensures Taken(lines, choices[..n], choices[n]) + lines[n].quantity <= Available(rows[choices[n]])
  {
    assert PlannedAt(lines, rows, choices, n);
  }

  /** The plan is sufficient: after the holds of the lines before it, every line's
      HoldReservation still finds its stock. */
  lemma HoldSucceeds(
    st: Stock, lines: seq<Demand>, items: seq<CartItem>, choices: seq<Id>, rids: seq<Id>, deadline: Time, now: Time, n: nat)
    requires HoldsReady(st, items, choices, rids) && Demands(lines, items)
    requires IsPlan(lines, st.snapshots, choices) && n < |items|
    requires NO_ID !in st.snapshots && rids[n] != NO_ID && 0 < now < deadline
    ensures HoldFault(HoldAll(st, items[..n], choices[..n], rids[..n], deadline), choices[n], items[n].quantity, rids[n], deadline, now).None?
  {
    PlanStep(lines, st.snapshots, choices, n);
    HeldCounters(st, lines, items[..n], choices[..n], rids[..n], deadline, choices[n]);
  }

  ghost predicate Balanced(st: Stock, orders: OrderTable) {
    BooksOk(st.snapshots, st.reservations, st.movements, orders)
  }

  lemma OneHoldBalances(b: Stock, id: Id, q: int, k: Id, deadline: Time, orders: OrderTable)
    requires Balanced(b, orders) && id in b.snapshots && 0 < q <= Available(b.snapshots[id]) && k !in b.reservations
    ensures Balanced(Hold(b, id, q, k, deadline), orders)
  {
    var s := ReservedRow(b.snapshots[id], q);
    var m := Movement(ReservationHeld, 0, s.onHand, s.reserved);
    HoldKeepsBooks(b.snapshots, b.reservations, b.movements, orders, id, k,
                   Reservation(id, q, Held, Some(deadline)), Append(b.movements, id, m), m);
  }

  /** Where the next hold starts. */
  lemma NextHold(st: Stock, lines: seq<Demand>, items: seq<CartItem>, choices: seq<Id>, rids: seq<Id>,
      deadline: Time, n: nat)
    requires HoldsReady(st, items, choices, rids) && Demands(lines, items)
    requires IsPlan(lines, st.snapshots, choices) && n < |items|
    ensures var b := HoldAll(st, items[..n], choices[..n], rids[..n], deadline);
            && choices[n] in b.snapshots && 0 < items[n].quantity <= Available(b.snapshots[choices[n]])
            && rids[n] !in b.reservations
  {
    PlanStep(lines, st.snapshots, choices, n);
    HeldCounters(st, lines, items[..n], choices[..n], rids[..n], deadline, choices[n]);
    HeldRows(st, items[..n], choices[..n], rids[..n], deadline);
  }

  lemma {:induction false} HoldsBalance(
    st: Stock, lines: seq<Demand>, items: seq<CartItem>, choices: seq<Id>, rids: seq<Id>, deadline: Time, orders: OrderTable)
    requires HoldsReady(st, items, choices, rids) && Demands(lines, items)
    requires IsPlan(lines, st.snapshots, choices) && Balanced(st, orders)
    ensures Balanced(HoldAll(st, items, choices, rids, deadline), orders)
  {
    hide Balanced, IsPlan;
    if items != [] {
      var n := |items| - 1;
      PlanPrefix(lines, st.snapshots, choices, n);
      HoldsBalance(st, lines, items[..n], choices[..n], rids[..n], deadline, orders);
      NextHold(st, lines, items, choices, rids, deadline, n);
      OneHoldBalances(HoldAll(st, items[..n], choices[..n], rids[..n], deadline), choices[n], items[n].quantity, rids[n], deadline, orders);
    }
  }
}
