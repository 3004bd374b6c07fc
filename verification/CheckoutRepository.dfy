/** The checkout transactions as they run: discovery, locks, revalidation line by line,
    allocation with cumulative demand, holds, order, session and cart
    (modules/commerce/checkout_session.go:262-792, modules/commerce/inventory_lifecycle.go:66-145,
    modules/commerce/order_repository.go:33-66). */
module CheckoutRepository {
  import opened Base
  import opened Money
  import opened Records
  import opened Inventory
  import opened Fingerprints
  import opened Tables
  import opened Checkout
  import opened Finalize
  import F = Finalize
  import C = Checkout
  import opened Settlements
  import opened Ledger
  import opened Holding
  import opened Locks
  import opened Repository
  import opened Purchases

  // ---- Discovery.

  lemma DiscoveredStep(c: Catalog, snaps: map<Id, Snapshot>, market: string, items: seq<CartItem>, i: nat)
    requires i < |items|
    ensures DiscoveredFor(c, snaps, market, items[..i + 1]) ==
            DiscoveredFor(c, snaps, market, items[..i]) + set id | id in snaps && Discovered(c, market, items[i], snaps[id])
  {
    var a, b := items[..i], items[..i + 1];
    hide Discovered;
    forall id ensures id in DiscoveredFor(c, snaps, market, b) <==>
      id in DiscoveredFor(c, snaps, market, a) || (id in snaps && Discovered(c, market, items[i], snaps[id]))
    {
      if id in DiscoveredFor(c, snaps, market, b) {
        var k :| 0 <= k < |b| && id in snaps && Discovered(c, market, b[k], snaps[id]);
        assert k < i ==> a[k] == b[k];
      }
      if id in DiscoveredFor(c, snaps, market, a) {
        var k :| 0 <= k < |a| && id in snaps && Discovered(c, market, a[k], snaps[id]);
        assert b[k] == a[k];
      }
      assert b[i] == items[i];
    }
  }

  /** The preliminary query of every line; ids are kept once. */
  method DiscoverCandidates(c: Catalog, snaps: map<Id, Snapshot>, market: string,
      items: seq<CartItem>) returns (ids: set<Id>)
    ensures ids == DiscoveredFor(c, snaps, market, items)
  {
    ids := {};
    var i := 0;
    while i < |items|
      invariant 0 <= i <= |items|
      invariant ids == DiscoveredFor(c, snaps, market, items[..i])
    {
      DiscoveredStep(c, snaps, market, items, i);
      ids := ids + set id | id in snaps && Discovered(c, market, items[i], snaps[id]);
      i := i + 1;
    }
    assert items[..i] == items;
  }

  // ---- Revalidation and money.

  lemma CandidatesLocked(c: Catalog, snaps: map<Id, Snapshot>, store: Id, market: string, currency: string,
      items: seq<CartItem>, i: nat)
    requires i < |items| && Revalidate(c, store, market, currency, items[i]).Ok?
    ensures var supplier := Revalidate(c, store, market, currency, items[i]).value.supplier;
            Candidates(c, snaps, store, market, items[i].sku, supplier) ==
            Candidates(c, Picked(snaps, DiscoveredFor(c, snaps, market, items)), store, market, items[i].sku, supplier)
  {
    CandidatesWereDiscovered(c, snaps, store, market, currency, items, i);
    hide Revalidate, IsCandidate, DiscoveredFor;
  }

  lemma {:induction false} CheckFails(c: Catalog, snaps: map<Id, Snapshot>, store: Id, market: string,
      currency: string, items: seq<CartItem>, n: nat)
    requires n <= |items| && CheckLines(c, snaps, store, market, currency, items[..n]).Err?
    ensures CheckLines(c, snaps, store, market, currency, items) == CheckLines(c, snaps, store, market, currency, items[..n])
    decreases |items|
  {
    hide CheckLine;
    if n == |items| {
      assert items[..n] == items;
    } else {
      assert items[..|items| - 1][..n] == items[..n];
      CheckFails(c, snaps, store, market, currency, items[..|items| - 1], n);
    }
  }

  lemma CheckStep(c: Catalog, snaps: map<Id, Snapshot>, store: Id, market: string, currency: string,
      items: seq<CartItem>, i: nat)
    requires i < |items| && CheckLines(c, snaps, store, market, currency, items[..i]).Ok?
    ensures CheckLines(c, snaps, store, market, currency, items[..i + 1]) ==
            CheckLine(c, snaps, store, market, currency, items[i], CheckLines(c, snaps, store, market, currency, items[..i]).value)
  {
    hide CheckLine;
    assert items[..i + 1][..i] == items[..i];
  }

  /** One line: its facts, its locked candidates, its money. */
  method RevalidateLine(c: Catalog, locked: map<Id, Snapshot>, store: Id, market: string, currency: string,
      item: CartItem, so: CheckedCart)
    returns (r: Result<CheckedCart>)
    ensures r == CheckLine(c, locked, store, market, currency, item, so)
  {
    hide Revalidate, IsCandidate, CheckedMultiply, CheckedAdd;
    var facts := Revalidate(c, store, market, currency, item);
    if facts.Err? { return Err(facts.error); }
    var candidates := set id | id in locked && IsCandidate(c, store, market, item.sku, facts.value.supplier, locked[id]);
    assert candidates == Candidates(c, locked, store, market, item.sku, facts.value.supplier);
    if |candidates| == 0 { return Err(InsufficientInventory); }
    var total := CheckedMultiply(item.price, item.quantity);
    if total.Err? || total.value < 0 { return Err(InvalidInput); }
    var subtotal := CheckedAdd(so.subtotal, total.value);
    if subtotal.Err? || subtotal.value < 0 { return Err(InvalidInput); }
    r := Ok(CheckedCart(so.lines + [CheckedLine(facts.value, candidates, total.value)], subtotal.value));
  }

  lemma LineLocked(c: Catalog, snaps: map<Id, Snapshot>, store: Id, market: string, currency: string,
      items: seq<CartItem>, i: nat, so: CheckedCart)
    requires i < |items|
    ensures CheckLine(c, Picked(snaps, DiscoveredFor(c, snaps, market, items)), store, market, currency, items[i], so) ==
            CheckLine(c, snaps, store, market, currency, items[i], so)
  {
    hide Revalidate, Candidates, Picked, DiscoveredFor, CheckedMultiply, CheckedAdd;
    if Revalidate(c, store, market, currency, items[i]).Ok? {
      CandidatesLocked(c, snaps, store, market, currency, items, i);
    }
  }

  /** The revalidation loop; it sees locked rows only. */
  method RevalidateLines(c: Catalog, locked: map<Id, Snapshot>, ghost snaps: map<Id, Snapshot>, store: Id,
      market: string, currency: string, items: seq<CartItem>)
    returns (r: Result<CheckedCart>)
    requires locked == Picked(snaps, DiscoveredFor(c, snaps, market, items))
    ensures r == CheckLines(c, snaps, store, market, currency, items)
  {
    hide CheckLine, Picked, DiscoveredFor;
    var so := CheckedCart([], 0);
    var i := 0;
    while i < |items|
      invariant 0 <= i <= |items|
      invariant CheckLines(c, snaps, store, market, currency, items[..i]) == Ok(so)
    {
      CheckStep(c, snaps, store, market, currency, items, i);
      LineLocked(c, snaps, store, market, currency, items, i, so);
      var next := RevalidateLine(c, locked, store, market, currency, items[i], so);
      if next.Err? {
        CheckFails(c, snaps, store, market, currency, items, i + 1);
        return next;
      }
      so := next.value;
      i := i + 1;
    }
    assert items[..i] == items;
    r := Ok(so);
  }

  // ---- Allocation.

  lemma {:induction false} PlanFails(lines: seq<Demand>, rows: map<Id, Snapshot>, n: nat)
    requires n <= |lines| && Plan(lines[..n], rows).Err?
    ensures Plan(lines, rows) == Plan(lines[..n], rows)
    decreases |lines|
  {
    hide Allocation;
    if n == |lines| {
      assert lines[..n] == lines;
    } else {
      assert lines[..|lines| - 1][..n] == lines[..n];
      PlanFails(lines[..|lines| - 1], rows, n);
    }
  }

  lemma PlanNext(lines: seq<Demand>, rows: map<Id, Snapshot>, i: nat)
    requires i < |lines| && Plan(lines[..i], rows).Ok?
    ensures var before := Plan(lines[..i], rows).value;
            var next := Allocation(lines[i].candidates, rows, lines[i].quantity, TakenMap(lines[..i], before));
            Plan(lines[..i + 1], rows) == if next.Err? then Err(next.error) else Ok(before + [next.value])
  {
    hide Allocation;
    assert lines[..i + 1][..i] == lines[..i];
  }

  lemma TakenMapGrows(lines: seq<Demand>, choices: seq<Id>, i: nat, choice: Id)
    requires i < |lines| && |choices| == i
    ensures TakenMap(lines[..i + 1], choices + [choice]) ==
            TakenMap(lines[..i], choices)[choice := TakenFrom(TakenMap(lines[..i], choices), choice) + lines[i].quantity]
  {
    var a, b := lines[..i], lines[..i + 1];
    var grown := choices + [choice];
    assert grown[..i] == choices;
    forall id: Id ensures Taken(b, grown, id) == Taken(a, choices, id) + if id == choice then lines[i].quantity else 0 {
      TakenPrefix(a, b, choices, id);
    }
    forall id: Id ensures id in Elements(grown) <==> id in Elements(choices) || id == choice {
      if id in Elements(choices) { var k :| 0 <= k < i && choices[k] == id; assert grown[k] == id; }
      assert grown[i] == choice;
    }
    TakenMapExact(a, choices, choice);
  }

  /** Rows the candidates do not name cannot matter. */
  lemma AllocationLocked(candidates: set<Id>, snaps: map<Id, Snapshot>, locked: map<Id, Snapshot>, quantity: int,
      taken: map<Id, int>)
    requires candidates <= locked.Keys && locked.Keys <= snaps.Keys && forall k :: k in locked ==> locked[k] == snaps[k]
    ensures Allocation(candidates, locked, quantity, taken) == Allocation(candidates, snaps, quantity, taken)
  {
    assert Fitting(candidates, locked, quantity, taken) == Fitting(candidates, snaps, quantity, taken);
  }

  /** The allocation loop with its cumulative map. */
  method AllocateLines(lines: seq<Demand>, locked: map<Id, Snapshot>,
      ghost snaps: map<Id, Snapshot>) returns (r: Result<seq<Id>>)
    requires locked.Keys <= snaps.Keys && forall k :: k in locked ==> locked[k] == snaps[k]
    requires forall i :: 0 <= i < |lines| ==> lines[i].candidates <= locked.Keys
    ensures r == Plan(lines, snaps)
  {
    hide Allocation, TakenMap, LeastCarrier;
    var choices: seq<Id>, taken: map<Id, int> := [], map[];
    var i := 0;
    NothingTaken(lines);
    while i < |lines|
      invariant 0 <= i <= |lines| && |choices| == i
      invariant Plan(lines[..i], snaps) == Ok(choices) && taken == TakenMap(lines[..i], choices)
    {
      PlanNext(lines, snaps, i);
      SortedElements(lines[i].candidates);
      var choice := AllocateLineSnapshot(SortedIds(lines[i].candidates), locked, lines[i].quantity, taken);
      AllocationLocked(lines[i].candidates, snaps, locked, lines[i].quantity, taken);
      if choice.Err? {
        PlanFails(lines, snaps, i + 1);
        return Err(choice.error);
      }
      TakenMapGrows(lines, choices, i, choice.value);
      taken := taken[choice.value := TakenFrom(taken, choice.value) + lines[i].quantity];
      choices := choices + [choice.value];
      i := i + 1;
    }
    assert lines[..i] == lines;
    r := Ok(choices);
  }

  lemma NothingTaken(lines: seq<Demand>)
    ensures TakenMap(lines[..0], []) == map[]
  {
  }

  // ---- Holds and the order row.

  /** The hold takes its quantity from what is available of one snapshot, changes no other,
      and with an unused identifier leaves any ledger balanced that was. */
  ghost predicate HoldTakes(st: Stock, snapshot: Id, q: int, reservation: Id, after: Stock) {
    && snapshot in st.snapshots && snapshot in after.snapshots
    && 0 <= Available(after.snapshots[snapshot]) == Available(st.snapshots[snapshot]) - q
    && (forall k :: k in st.snapshots && k != snapshot ==> k in after.snapshots && after.snapshots[k] == st.snapshots[k])
    && (reservation !in st.reservations ==> forall orders :: Balanced(st, orders) ==> Balanced(after, orders))
  }

  lemma HoldSafe(st: Stock, snapshot: Id, q: int, reservation: Id, deadline: Time, now: Time)
    ensures HoldFault(st, snapshot, q, reservation, deadline, now).None? ==>
      HoldTakes(st, snapshot, q, reservation, Hold(st, snapshot, q, reservation, deadline))
  {
    hide Balanced;
    if HoldFault(st, snapshot, q, reservation, deadline, now).None? && reservation !in st.reservations {
      forall orders | Balanced(st, orders) ensures Balanced(Hold(st, snapshot, q, reservation, deadline), orders) {
        OneHoldBalances(st, snapshot, q, reservation, deadline, orders);
      }
    }
  }

  method HoldReservation(st: Stock, snapshot: Id, q: int, reservation: Id, deadline: Time,
      now: Time) returns (r: Result<Stock>)
    ensures var fault := HoldFault(st, snapshot, q, reservation, deadline, now);
            r == if fault.Some? then Err(fault.value) else Ok(Hold(st, snapshot, q, reservation, deadline))
    ensures r.Ok? ==> HoldTakes(st, snapshot, q, reservation, r.value)
  {
    hide HoldTakes;
    HoldSafe(st, snapshot, q, reservation, deadline, now);
    if snapshot == NO_ID || q <= 0 || reservation == NO_ID || deadline == 0 || now == 0 || deadline <= now { return Err(InvalidInput); }
    if snapshot !in st.snapshots { return Err(NotFound); }
    var snap := st.snapshots[snapshot];
    if snap.onHand - snap.reserved < q { return Err(InsufficientInventory); }
    var reserved := snap.reserved + q;
    var row := snap.(reserved := reserved, version := snap.version + 1);
    r := Ok(Stock(st.snapshots[snapshot := row],
                  st.reservations[reservation := Reservation(snapshot, q, Held, Some(deadline))],
                  Append(st.movements, snapshot, Movement(ReservationHeld, 0, snap.onHand, reserved))));
  }

  /** The hold of every line. Each finds its stock, so the error return of HoldReservation
      is never taken, and each row is one the transaction has locked already. */
  method HoldLines(st: Stock, items: seq<CartItem>, choices: seq<Id>, rids: seq<Id>, deadline: Time, now: Time,
      ghost held: seq<Lock>, ghost lines: seq<Demand>)
    returns (r: Stock)
    requires HoldsReady(st, items, choices, rids) && Demands(lines, items) && IsPlan(lines, st.snapshots, choices)
    requires NO_ID !in st.snapshots && (forall i :: 0 <= i < |rids| ==> rids[i] != NO_ID) && 0 < now < deadline
    requires forall i :: 0 <= i < |choices| ==> SnapshotLock(choices[i]) in held
    ensures r == HoldAll(st, items, choices, rids, deadline)
  {
    hide IsPlan, Demands, HoldFault, Hold;
    r := st;
    var i := 0;
    while i < |items|
      invariant 0 <= i <= |items|
      invariant r == HoldAll(st, items[..i], choices[..i], rids[..i], deadline)
    {
      HoldSucceeds(st, lines, items, choices, rids, deadline, now, i);
      var next := HoldReservation(r, choices[i], items[i].quantity, rids[i], deadline, now);
      HoldStep(st, items, choices, rids, deadline, i);
      r := next.value;
      i := i + 1;
    }
    assert items[..i] == items && choices[..i] == choices && rids[..i] == rids;
  }

  lemma HoldStep(st: Stock, items: seq<CartItem>, choices: seq<Id>, rids: seq<Id>, deadline: Time, i: nat)
    requires HoldsReady(st, items, choices, rids) && i < |items|
    ensures HoldAll(st, items[..i + 1], choices[..i + 1], rids[..i + 1], deadline) ==
            Hold(HoldAll(st, items[..i], choices[..i], rids[..i], deadline), choices[i], items[i].quantity, rids[i], deadline)
  {
    hide Hold;
    assert items[..i + 1][..i] == items[..i] && choices[..i + 1][..i] == choices[..i] && rids[..i + 1][..i] == rids[..i];
  }

  /** The checks and unique constraints of the insert, item by item. */
  method CreateOrder(tx: Tables, id: Id, o: Order) returns (fault: Option<Error>)
    ensures fault == CreateFault(tx, id, o)
  {
    if id == NO_ID || o.store == NO_ID || Blank(o.market) || o.session == NO_ID || Blank(o.currency) || o.subtotal < 0 || o.total < 0 || o.deadline == 0 {
      return Some(InvalidInput);
    }
    if o.customer.None? && o.digestLength != DIGEST_SIZE { return Some(InvalidInput); }
    if id in tx.orders || o.session in tx.bySession || (o.store, o.number) in tx.byNumber { return Some(Conflict); }
    var i := 0;
    while i < |o.items|
      invariant 0 <= i <= |o.items| && forall k :: 0 <= k < i ==> ItemAccepted(o.items[k])
    {
      if !ItemAccepted(o.items[i]) { return Some(InvalidInput); }
      i := i + 1;
    }
    fault := None;
  }

  /** The line loops over the locked rows. */
  method AllocateCart(c: Catalog, locked: map<Id, Snapshot>, ghost snaps: map<Id, Snapshot>, ghost ids: set<Id>,
      store: Id, market: string, currency: string, items: seq<CartItem>)
    returns (r: Result<Accepted>)
    requires ids == DiscoveredFor(c, snaps, market, items) && locked == Picked(snaps, ids)
    ensures r == AcceptedCart(c, snaps, store, market, currency, items)
    ensures r.Ok? ==> forall i :: 0 <= i < |r.value.choices| ==> SnapshotLock(r.value.choices[i]) in SnapshotLocks(SortedIds(ids * snaps.Keys))
  {
    hide Picked, DiscoveredFor, CheckLines, Plan, DemandsOf, SnapshotLocks;
    var lines := RevalidateLines(c, locked, snaps, store, market, currency, items);
    if lines.Err? { return Err(lines.error); }
    DemandsLocked(c, snaps, store, market, currency, items);
    var demands := DemandsOf(items, lines.value.lines);
    PickedRows(snaps, ids);
    var plan := AllocateLines(demands, locked, snaps);
    if plan.Err? { return Err(plan.error); }
    ChoicesLocked(demands, snaps, locked, ids, plan.value);
    r := Ok(Accepted(lines.value, plan.value, currency));
  }

  // ---- The rows the transaction writes are locked.

  lemma {:induction false} HoldsElsewhere(st: Stock, items: seq<CartItem>, choices: seq<Id>, rids: seq<Id>, deadline: Time, k: Id)
    requires HoldsReady(st, items, choices, rids) && k in st.snapshots && k !in choices
    ensures var r := HoldAll(st, items, choices, rids, deadline);
            k in r.snapshots && r.snapshots[k] == st.snapshots[k]
  {
    if items != [] {
      var n := |items| - 1;
      assert choices[n] != k && forall i :: 0 <= i < n ==> choices[..n][i] == choices[i];
      HoldsElsewhere(st, items[..n], choices[..n], rids[..n], deadline, k);
    }
  }

  /** Session, cart and order sequence are locked. */
  predicate FinalizeLocked(t: Tables, store: Id, session: Id, locks: seq<Lock>)
    requires session in t.sessions
  {
    SessionLock(session) in locks && CartLock(t.sessions[session].cart) in locks && SequenceLock(store) in locks
  }

  lemma AllLocked(t: Tables, store: Id, session: Id, stock: seq<Lock>)
    requires session in t.sessions
    ensures var locks := [SessionLock(session), CartLock(t.sessions[session].cart)] + stock + [SequenceLock(store)];
            FinalizeLocked(t, store, session, locks) && forall l :: l in stock ==> l in locks
  {
    var locks := [SessionLock(session), CartLock(t.sessions[session].cart)] + stock + [SequenceLock(store)];
    assert locks[0] == SessionLock(session) && locks[1] == CartLock(t.sessions[session].cart) && locks[|locks| - 1] == SequenceLock(store);
    forall l | l in stock ensures l in locks { var i :| 0 <= i < |stock| && stock[i] == l; assert locks[i + 2] == l; }
  }

  lemma CartLocked(t: Tables, cart: Id, after: Cart)
    requires cart in t.carts
    ensures WritesLocked(t, t.(carts := t.carts[cart := after]), [CartLock(cart)])
  {
  }

  lemma HeldStockLocked(st: Stock, items: seq<CartItem>, choices: seq<Id>, rids: seq<Id>, deadline: Time, locks: seq<Lock>)
    requires HoldsReady(st, items, choices, rids)
    requires forall i :: 0 <= i < |choices| ==> SnapshotLock(choices[i]) in locks
    ensures var r := HoldAll(st, items, choices, rids, deadline);
            StockLocked(st.snapshots, r.snapshots, locks) && ReservationsLocked(st.reservations, r.reservations, locks)
  {
    HeldRows(st, items, choices, rids, deadline);
    forall k | k in st.snapshots && k !in choices { HoldsElsewhere(st, items, choices, rids, deadline, k); }
  }

  /** Only the session, its cart, the store's sequence, new rows and stock are written. */
  lemma PlacedRowsLocked(t: Tables, store: Id, request: FinalizeRequest, fp: Fingerprint, st: Stock, id: Id, o: Order, locks: seq<Lock>)
    requires request.session in t.sessions && t.sessions[request.session].cart in t.carts
    requires FinalizeLocked(t, store, request.session, locks) && o.store == store && id !in t.orders
    requires StockLocked(t.snapshots, st.snapshots, locks) && ReservationsLocked(t.reservations, st.reservations, locks)
    ensures WritesLocked(t, Placed(t, request, fp, st, id, o), locks)
  {
    hide StockLocked, ReservationsLocked, ClosedSession, Append;
  }

  lemma PlacedLocked(t: Tables, store: Id, request: FinalizeRequest, fp: Fingerprint, a: Accepted, f: Fresh, deadline: Time,
      o: Order, locks: seq<Lock>)
    requires SessionIn(t, store, request.session) && CartIn(t, store, t.sessions[request.session].cart)
    requires |a.choices| == |ItemsOf(t, request.session)| && (forall i :: 0 <= i < |a.choices| ==> a.choices[i] in t.snapshots)
    requires FreshFor(t, f, |ItemsOf(t, request.session)|) && o.store == store
    requires FinalizeLocked(t, store, request.session, locks)
    requires forall i :: 0 <= i < |a.choices| ==> SnapshotLock(a.choices[i]) in locks
    ensures WritesLocked(t, Placed(t, request, fp, HoldAll(StockOf(t), ItemsOf(t, request.session), a.choices, f.reservations, deadline), f.order, o), locks)
  {
    hide WritesLocked, Placed, HoldAll, FinalizeLocked, StockLocked, ReservationsLocked;
    HeldStockLocked(StockOf(t), ItemsOf(t, request.session), a.choices, f.reservations, deadline, locks);
    PlacedRowsLocked(t, store, request, fp, HoldAll(StockOf(t), ItemsOf(t, request.session), a.choices, f.reservations, deadline), f.order, o, locks);
  }

  // ---- The whole transaction.

  class Checkouts {
    var tables: Tables
    /** Row locks of the running transaction, in the order it took them. */
    var locks: seq<Lock>

    constructor (tables: Tables)
      ensures this.tables == tables && locks == []
    {
      this.tables, locks := tables, [];
    }

    /** Lock session and cart, apply the state rules, load the items, fingerprint. */
    method OpenSession(store: Id, request: FinalizeRequest, now: Time) returns (r: Result<Fingerprint>)
      modifies this`locks
      ensures r == Opened(tables, store, request, now)
      ensures Increasing(locks)
      ensures r.Ok? ==> locks == [SessionLock(request.session), CartLock(tables.sessions[request.session].cart)]
    {
      hide FinalizeFingerprint;
      locks := [];
      if store == NO_ID || request.session == NO_ID { return Err(InvalidInput); }
      if request.session !in tables.sessions || tables.sessions[request.session].store != store { return Err(NotFound); }
      locks := [SessionLock(request.session)];
      var session := tables.sessions[request.session];
      if session.cart !in tables.carts || tables.carts[session.cart].store != session.store { return Err(NotFound); }
      locks := locks + [CartLock(session.cart)];
      var cart := tables.carts[session.cart];
      if session.status == SessionFinalized && cart.status != CartCheckedOut { return Err(CheckoutCartInvariant); }
      if session.status == SessionOpen && cart.status != CartActive { return Err(Conflict); }
      if session.status == SessionExpired || (session.status == SessionOpen && session.expiresAt <= now) { return Err(CheckoutExpired); }
      if |cart.items| == 0 { return Err(InvalidInput); }
      var i := 0;
      while i < |cart.items|
        invariant 0 <= i <= |cart.items| && forall k :: 0 <= k < i ==> ItemTextOk(cart.items[k])
      {
        if !ItemTextOk(cart.items[i]) { return Err(InvalidInput); }
        i := i + 1;
      }
      r := ComputeFinalizeFingerprint(request.session, session, session.cart, cart, request);
    }

    /** Payload checks, candidate locks, order number, revalidation, allocation. */
    method AcceptCart(store: Id, request: FinalizeRequest) returns (r: Result<Accepted>, number: nat)
      requires SessionIn(tables, store, request.session) && CartIn(tables, store, tables.sessions[request.session].cart)
      requires locks == [SessionLock(request.session), CartLock(tables.sessions[request.session].cart)]
      modifies this`locks
      ensures r == Accept(tables, store, request)
      ensures Increasing(locks) && (r.Ok? ==> number == NextNumber(tables, store))
      ensures r.Ok? ==> forall i :: 0 <= i < |r.value.choices| ==> SnapshotLock(r.value.choices[i]) in locks
      ensures r.Ok? ==> FinalizeLocked(tables, store, request.session, locks)
    {
      hide Picked, DiscoveredFor, AcceptedCart, SnapshotLocks, Increasing, FinalizeLocked;
      number := 0;
      var session := tables.sessions[request.session];
      var cart := tables.carts[session.cart];
      TwoOrdered(SessionLock(request.session), CartLock(session.cart));
      if !AddressOk(request) { return Err(InvalidInput), 0; }
      if session.digestLength != DIGEST_SIZE { return Err(InvalidInput), 0; }
      var ids := DiscoverCandidates(tables.catalog, tables.snapshots, cart.market, cart.items);
      var locked, taken := LockSnapshotsByIDs(tables.snapshots, ids);
      locks := locks + taken;
      number := AllocateOrderNumber(store);
      locks := locks + [SequenceLock(store)];
      AllOrdered(request.session, session.cart, tables.snapshots, ids, store);
      AllLocked(tables, store, request.session, taken);
      if store !in tables.catalog.stores || tables.catalog.stores[store].market !in tables.catalog.markets { return Err(NotFound), number; }
      if !tables.catalog.stores[store].active || tables.catalog.stores[store].market != cart.market { return Err(ListingUnavailable), number; }
      var currency := tables.catalog.markets[cart.market];
      r := AllocateCart(tables.catalog, locked, tables.snapshots, ids, store, cart.market, currency, cart.items);
    }

    /** The finalized replay. */
    method Replay(store: Id, session: Id, fp: Fingerprint) returns (r: Result<Order>)
      requires session in tables.sessions
      ensures r == Replayed(tables, store, session, fp)
    {
      if tables.sessions[session].fingerprint != Some(fp) { return Err(IdempotencyConflict); }
      if session !in tables.bySession { return Err(NotFound); }
      var id := tables.bySession[session];
      if id !in tables.orders || tables.orders[id].store != store { return Err(NotFound); }
      r := Ok(tables.orders[id]);
    }

    /** Hold the stock, write order, timeline and event, close session and cart; the
        tables change only if everything went through. */
    method PlaceOrder(store: Id, request: FinalizeRequest, fp: Fingerprint, a: Accepted, number: nat, at: Time,
        duration: int, f: Fresh)
      returns (r: Result<Order>)
      requires SessionIn(tables, store, request.session) && CartIn(tables, store, tables.sessions[request.session].cart)
      requires Accept(tables, store, request) == Ok(a) && number == NextNumber(tables, store)
      requires FreshFor(tables, f, |ItemsOf(tables, request.session)|) && at != 0 && NO_ID !in tables.snapshots
      requires forall i :: 0 <= i < |a.choices| ==> SnapshotLock(a.choices[i]) in locks
      requires FinalizeLocked(tables, store, request.session, locks)
      modifies this`tables
      ensures (tables, r) == Place(old(tables), store, request, fp, at, duration, f)
      ensures WritesLocked(old(tables), tables, locks)
    {
      hide Accept, HoldAll, CreateFault, Place, Placed, NewOrder, WritesLocked, FinalizeLocked;
      NothingWritten(tables, locks);
      PlanInSnapshots(tables, store, request);
      var deadline := at + if duration <= 0 then DEFAULT_CONFIRMATION else duration;
      PlaceIs(tables, store, request, fp, at, duration, f, a);
      var st := HoldCart(tables, store, request, a, f, deadline, at, locks);
      var o := BuildOrder(tables, store, request, a, number, f, at, deadline);
      var fault := CreateOrder(tables, f.order, o);
      if fault.Some? { return Err(fault.value); }
      PlacedLocked(tables, store, request, fp, a, f, deadline, o, locks);
      tables := Written(tables, request, fp, st, f.order, o);
      r := Ok(o);
    }

    method FinalizeCheckout(store: Id, request: FinalizeRequest, now: Time, at: Time, duration: int,
        f: Fresh) returns (r: Result<Order>)
      requires AttemptFresh(tables, request, f) && at != 0 && NO_ID !in tables.snapshots
      modifies this
      ensures (tables, r) == F.FinalizeCheckout(old(tables), store, request, now, at, duration, f)
      ensures Increasing(locks) && WritesLocked(old(tables), tables, locks)
    {
      hide Increasing, Place, Accept, Replayed, WritesLocked, FinalizeLocked;
      var fp := OpenSession(store, request, now);
      NothingWritten(tables, locks);
      if fp.Err? { return Err(fp.error); }
      OpenedHere(tables, store, request, now);
      if tables.sessions[request.session].status == SessionFinalized {
        r := Replay(store, request.session, fp.value);
        return;
      }
      var accepted, number := AcceptCart(store, request);
      NothingWritten(tables, locks);
      if accepted.Err? {
        NotAccepted(tables, store, request, fp.value, at, duration, f);
        return Err(accepted.error);
      }
      r := PlaceOrder(store, request, fp.value, accepted.value, number, at, duration, f);
    }

    method EvaluateCheckoutSession(store: Id, request: FinalizeRequest, now: Time) returns (r: Result<Decision>)
      modifies this`locks
      ensures r == C.EvaluateCheckoutSession(tables, store, request, now)
      ensures Increasing(locks)
    {
      hide FinalizeFingerprint;
      locks := [];
      if store == NO_ID || request.session == NO_ID { return Err(InvalidInput); }
      if request.session !in tables.sessions || tables.sessions[request.session].store != store { return Err(NotFound); }
      locks := [SessionLock(request.session)];
      var session := tables.sessions[request.session];
      if session.cart !in tables.carts || tables.carts[session.cart].store != session.store { return Err(NotFound); }
      locks := locks + [CartLock(session.cart)];
      var cart := tables.carts[session.cart];
      if session.status == SessionFinalized && cart.status != CartCheckedOut { return Err(CheckoutCartInvariant); }
      if session.status == SessionOpen && cart.status != CartActive { return Err(Conflict); }
      if session.status == SessionExpired || (session.status == SessionOpen && session.expiresAt <= now) { return Err(CheckoutExpired); }
      if session.digestLength != DIGEST_SIZE { return Err(InvalidInput); }
      var fp := ComputeFinalizeFingerprint(request.session, session, session.cart, cart, request);
      if fp.Err? { return Err(fp.error); }
      var decision := Decision(request.session, session.status, fp.value, false);
      if session.status == SessionFinalized {
        if session.fingerprint.None? || session.fingerprint.value != fp.value { return Err(IdempotencyConflict); }
        decision := decision.(replay := true);
      }
      r := Ok(decision);
    }

    method CreateCheckoutSession(id: Id, store: Id, cart: Id, customer: Option<Id>, lifetime: int,
        now: Time) returns (r: Result<Session>)
      modifies this
      ensures (tables, r) == C.CreateCheckoutSession(old(tables), id, store, cart, customer, lifetime, now)
      ensures Increasing(locks) && WritesLocked(old(tables), tables, locks)
    {
      locks := [];
      if store == NO_ID || cart == NO_ID { return Err(InvalidInput); }
      var life := lifetime;
      if life == 0 { life := DEFAULT_SESSION_LIFETIME; }
      if life < 0 || life < SECOND { return Err(InvalidInput); }
      if cart !in tables.carts || tables.carts[cart].store != store { return Err(NotFound); }
      locks := [CartLock(cart)];
      var c := tables.carts[cart];
      if c.status != CartActive { return Err(CartExpired); }
      if customer.Some? && (c.customer.None? || c.customer.value != customer.value) { return Err(Conflict); }
      if id in tables.sessions { return Err(Conflict); }
      var s := Session(store, cart, customer, SessionOpen, now + life / SECOND * SECOND, None, None, None, 32);
      tables := tables.(sessions := tables.sessions[id := s]);
      r := Ok(s);
    }

    method AddCartItem(store: Id, cart: Id, item: Id, sku: Id, quantity: int) returns (r: Result<Cart>)
      modifies this
      ensures (tables, r) == C.AddCartItem(old(tables), store, cart, item, sku, quantity)
      ensures Increasing(locks) && WritesLocked(old(tables), tables, locks)
    {
      hide ResolveListing, WritesLocked;
      NothingWritten(tables, []);
      NothingWritten(tables, [CartLock(cart)]);
      locks := [];
      if store == NO_ID || cart == NO_ID || sku == NO_ID || quantity <= 0 || quantity > 10000 { return Err(InvalidInput); }
      if cart !in tables.carts || tables.carts[cart].store != store { return Err(NotFound); }
      locks := [CartLock(cart)];
      var c := tables.carts[cart];
      if c.status != CartActive { return Err(CartExpired); }
      var listing := ResolveListing(tables.catalog, store, c.market, sku);
      if listing.Err? { return Err(listing.error); }
      ListingResolved(tables.catalog, store, c.market, sku);
      var price := tables.catalog.listings[listing.value].price.value;
      var found := FindExisting(c.items, listing.value, sku);
      FindItemBound(c.items, listing.value, sku);
      var items;
      if found.Some? {
        var existing := c.items[found.value];
        if existing.quantity + quantity > 10000 || existing.quantity + quantity <= 0 { return Err(InvalidInput); }
        items := c.items[found.value := existing.(quantity := existing.quantity + quantity, price := price.amount, currency := price.currency)];
      } else {
        items := InsertItem(c.items, CartItem(item, listing.value, sku, quantity, price.amount, price.currency));
      }
      var after := c.(items := items);
      CartLocked(tables, cart, after);
      tables := tables.(carts := tables.carts[cart := after]);
      r := Ok(after);
    }

    /** SELECT quantity ... for the line of this listing and SKU. */
    method FindExisting(items: seq<CartItem>, listing: Id, sku: Id) returns (found: Option<nat>)
      ensures found == FindItem(items, listing, sku)
    {
      var i := 0;
      assert items[0..] == items;
      while i < |items|
        invariant 0 <= i <= |items|
        invariant FindItem(items, listing, sku) == Shifted(FindItem(items[i..], listing, sku), i)
      {
        assert items[i..][0] == items[i] && items[i..][1..] == items[i + 1..];
        if items[i].listing == listing && items[i].sku == sku { return Some(i); }
        i := i + 1;
      }
      found := None;
    }

    /** UpdateCartItemQuantity and RemoveCartItem run their change inside this. */
    method MutateCartItem(store: Id, cart: Id, edit: CartEdit) returns (r: Result<Cart>)
      requires edit.item != NO_ID && (edit.SetQuantity? ==> 0 < edit.quantity <= MAX_LINE_QUANTITY)
      modifies this
      ensures (tables, r) == C.EditCart(old(tables), store, cart, edit)
      ensures Increasing(locks) && WritesLocked(old(tables), tables, locks)
    {
      locks := [];
      if cart !in tables.carts || tables.carts[cart].store != store { return Err(NotFound); }
      locks := [CartLock(cart)];
      var c := tables.carts[cart];
      if c.status != CartActive { return Err(CartExpired); }
      var after := c.(items := EditedItems(c.items, edit));
      tables := tables.(carts := tables.carts[cart := after]);
      r := Ok(after);
    }

    method UpdateCartItemQuantity(store: Id, cart: Id, item: Id, quantity: int) returns (r: Result<Cart>)
      modifies this
      ensures (tables, r) == C.EditCart(old(tables), store, cart, SetQuantity(item, quantity))
      ensures Increasing(locks) && WritesLocked(old(tables), tables, locks)
    {
      if item == NO_ID || quantity <= 0 || quantity > 10000 {
        locks := [];
        return Err(InvalidInput);
      }
      r := MutateCartItem(store, cart, SetQuantity(item, quantity));
    }

    method RemoveCartItem(store: Id, cart: Id, item: Id) returns (r: Result<Cart>)
      modifies this
      ensures (tables, r) == C.EditCart(old(tables), store, cart, RemoveItem(item))
      ensures Increasing(locks) && WritesLocked(old(tables), tables, locks)
    {
      if item == NO_ID {
        locks := [];
        return Err(InvalidInput);
      }
      r := MutateCartItem(store, cart, RemoveItem(item));
    }

    /** The number the upsert returns; the sequence moves only if the attempt commits. */
    method AllocateOrderNumber(store: Id) returns (number: nat)
      ensures number == NextNumber(tables, store)
    {
      number := if store in tables.sequences then tables.sequences[store] else 100001;
    }
  }

  /** The rows a committed placement writes, table by table. */
  method Written(t: Tables, request: FinalizeRequest, fp: Fingerprint, st: Stock, id: Id, o: Order) returns (tx: Tables)
    requires request.session in t.sessions && t.sessions[request.session].cart in t.carts
    ensures tx == Placed(t, request, fp, st, id, o)
  {
    hide Append;
    var session := t.sessions[request.session];
    var cart := t.carts[session.cart];
    tx := t.(snapshots := st.snapshots, reservations := st.reservations, movements := st.movements);
    tx := tx.(sequences := tx.sequences[o.store := o.number + 1]);
    tx := tx.(orders := tx.orders[id := o], bySession := tx.bySession[o.session := id], byNumber := tx.byNumber[(o.store, o.number) := id]);
    tx := tx.(timeline := Append(tx.timeline, id, TimelineRow(None, Pending, Records.Checkout, o.createdAt)));
    tx := tx.(events := Append(tx.events, id, OrderEvent(OrderCreated, o.version, Pending, o.createdAt)));
    var closed := session.(status := SessionFinalized, fingerprint := Some(fp), address := Some(request.address), email := Some(request.email));
    tx := tx.(sessions := tx.sessions[request.session := closed]);
    tx := tx.(carts := tx.carts[session.cart := cart.(status := CartCheckedOut)]);
  }

  /** One order line per cart line, in cart order. */
  method OrderItems(items: seq<CartItem>, lines: seq<CheckedLine>, snaps: map<Id, Snapshot>, choices: seq<Id>,
      rids: seq<Id>) returns (r: seq<OrderItem>)
    requires |items| == |lines| == |choices| == |rids|
    requires forall i :: 0 <= i < |choices| ==> choices[i] in snaps
    ensures r == NewItems(items, lines, snaps, choices, rids)
  {
    r := [];
    var i := 0;
    while i < |items|
      invariant 0 <= i <= |items|
      invariant r == NewItems(items, lines, snaps, choices, rids)[..i]
    {
      var item, line := items[i], lines[i];
      r := r + [OrderItem(item.listing, line.facts.product, line.facts.variant, item.sku, line.facts.offer, line.facts.supplier,
                          snaps[choices[i]].location, rids[i], line.facts.title, line.facts.skuCode, item.price, item.currency,
                          item.quantity, line.lineTotal, line.facts.cost, line.facts.costCurrency)];
      i := i + 1;
    }
  }

  method HoldCart(t: Tables, store: Id, request: FinalizeRequest, a: Accepted, f: Fresh, deadline: Time, at: Time,
      ghost held: seq<Lock>) returns (st: Stock)
    requires SessionIn(t, store, request.session) && CartIn(t, store, t.sessions[request.session].cart)
    requires Accept(t, store, request) == Ok(a)
    requires FreshFor(t, f, |ItemsOf(t, request.session)|) && 0 < at < deadline && NO_ID !in t.snapshots
    requires |a.choices| == |ItemsOf(t, request.session)| && forall i :: 0 <= i < |a.choices| ==> a.choices[i] in t.snapshots
    requires forall i :: 0 <= i < |a.choices| ==> SnapshotLock(a.choices[i]) in held
    ensures st == HoldAll(StockOf(t), ItemsOf(t, request.session), a.choices, f.reservations, deadline)
  {
    PlanOf(t, store, request);
    hide Accept, IsPlan, HoldAll, DemandsOf;
    var cart := t.carts[t.sessions[request.session].cart];
    st := HoldLines(StockOf(t), cart.items, a.choices, f.reservations, deadline, at, held, DemandsOf(cart.items, a.cart.lines));
  }

  method BuildOrder(t: Tables, store: Id, request: FinalizeRequest, a: Accepted, number: nat, f: Fresh, at: Time,
      deadline: Time) returns (o: Order)
    requires SessionIn(t, store, request.session) && CartIn(t, store, t.sessions[request.session].cart)
    requires |ItemsOf(t, request.session)| == |a.cart.lines| == |a.choices| == |f.reservations| && number == NextNumber(t, store)
    requires forall i :: 0 <= i < |a.choices| ==> a.choices[i] in t.snapshots
    ensures o == NewOrder(t, store, request, a, f, at, deadline) && o.store == store
  {
    var session := t.sessions[request.session];
    var cart := t.carts[session.cart];
    var items := OrderItems(cart.items, a.cart.lines, t.snapshots, a.choices, f.reservations);
    o := Order(number, store, cart.market, session.customer, request.session, Pending, a.currency, session.digestLength,
               a.cart.subtotal, a.cart.subtotal, deadline, None, 1, at, at, items, request.address);
  }

  lemma OpenedHere(t: Tables, store: Id, request: FinalizeRequest, now: Time)
    requires Opened(t, store, request, now).Ok?
    ensures SessionIn(t, store, request.session) && CartIn(t, store, t.sessions[request.session].cart)
  {
  }

  lemma NotAccepted(t: Tables, store: Id, request: FinalizeRequest, fp: Fingerprint, at: Time, duration: int, f: Fresh)
    requires SessionIn(t, store, request.session) && CartIn(t, store, t.sessions[request.session].cart)
    requires |f.reservations| == |t.carts[t.sessions[request.session].cart].items| && Accept(t, store, request).Err?
    ensures Place(t, store, request, fp, at, duration, f) == (t, Err(Accept(t, store, request).error))
  {
    hide Accept;
  }

  function Shifted(found: Option<nat>, offset: nat): Option<nat> {
    if found.None? then None else Some(found.value + offset)
  }

  lemma TwoOrdered(a: Lock, b: Lock)
    requires Below(a, b)
    ensures Increasing([a, b])
  {
  }

  lemma AllOrdered(session: Id, cart: Id, snaps: map<Id, Snapshot>, ids: set<Id>, store: Id)
    ensures Increasing([SessionLock(session), CartLock(cart)] + SnapshotLocks(SortedIds(ids * snaps.Keys)) + [SequenceLock(store)])
  {
    SortedIdsSorted(ids * snaps.Keys);
    FinalizeOrdered(session, cart, SortedIds(ids * snaps.Keys), store);
  }

  lemma PickedRows(snaps: map<Id, Snapshot>, ids: set<Id>)
    ensures Picked(snaps, ids).Keys == ids * snaps.Keys && forall k :: k in Picked(snaps, ids) ==> Picked(snaps, ids)[k] == snaps[k]
  {
  }

  /** Every candidate of every accepted line was discovered, hence locked. */
  lemma {:induction false} LinesDiscovered(c: Catalog, snaps: map<Id, Snapshot>, store: Id, market: string,
      currency: string, items: seq<CartItem>, n: nat, i: nat)
    requires i < n <= |items| && CheckLines(c, snaps, store, market, currency, items[..n]).Ok?
    ensures CheckLines(c, snaps, store, market, currency, items[..n]).value.lines[i].candidates <= DiscoveredFor(c, snaps, market, items) * snaps.Keys
    decreases n
  {
    hide Revalidate, DiscoveredFor, CheckedMultiply, CheckedAdd;
    assert items[..n][..n - 1] == items[..n - 1];
    if i == n - 1 {
      CandidatesWereDiscovered(c, snaps, store, market, currency, items, i);
    } else {
      LinesDiscovered(c, snaps, store, market, currency, items, n - 1, i);
    }
  }

  lemma DemandsLocked(c: Catalog, snaps: map<Id, Snapshot>, store: Id, market: string, currency: string,
      items: seq<CartItem>)
    requires CheckLines(c, snaps, store, market, currency, items).Ok?
    ensures var lines := CheckLines(c, snaps, store, market, currency, items).value.lines;
            forall i :: 0 <= i < |DemandsOf(items, lines)| ==> DemandsOf(items, lines)[i].candidates <= Picked(snaps, DiscoveredFor(c, snaps, market, items)).Keys
  {
    hide CheckLines, DiscoveredFor;
    assert items[..|items|] == items;
    forall i | 0 <= i < |items| { LinesDiscovered(c, snaps, store, market, currency, items, |items|, i); }
    PickedRows(snaps, DiscoveredFor(c, snaps, market, items));
  }

  lemma ChoicesLocked(demands: seq<Demand>, snaps: map<Id, Snapshot>, locked: map<Id, Snapshot>, ids: set<Id>,
      choices: seq<Id>)
    requires Plan(demands, snaps) == Ok(choices) && locked == Picked(snaps, ids)
    requires forall i :: 0 <= i < |demands| ==> demands[i].candidates <= locked.Keys
    ensures forall i :: 0 <= i < |choices| ==> SnapshotLock(choices[i]) in SnapshotLocks(SortedIds(ids * snaps.Keys))
  {
    PlanIsPlan(demands, snaps);
    PickedRows(snaps, ids);
    var sorted := SortedIds(ids * snaps.Keys);
    SortedIdsSorted(ids * snaps.Keys);
    forall i | 0 <= i < |choices| ensures SnapshotLock(choices[i]) in SnapshotLocks(sorted) {
      assert PlannedAt(demands, snaps, choices, i);
      assert choices[i] in demands[i].candidates;
      assert choices[i] in sorted;
      var k :| 0 <= k < |sorted| && sorted[k] == choices[i];
      assert SnapshotLocks(sorted)[k] == SnapshotLock(choices[i]);
    }
  }
}
