/** The order transactions as they run: rows are locked, checked and rewritten one at a
    time on the transaction's own view, which becomes the tables only at commit
    (modules/commerce/repository.go:33-51, modules/commerce/order_repository.go:352-1495). */
module Repository {
  import opened Base
  import opened Records
  import opened Orders
  import opened Inventory
  import opened Tables
  import T = Tables
  import Catalogue
  import opened Settlements
  import opened Locks
  import Cache
  import Commands
  import Runs

  // ---- The rows a settlement locks.

  function SettleLocks(res: Reservations, ids: set<Id>, snaps: map<Id, Snapshot>): seq<Lock> {
    SnapshotLocks(SortedIds(Touched(res, ids) * snaps.Keys)) + ReservationLocks(SortedIds(ids * res.Keys))
  }

  lemma SettleLocksOrdered(order: Id, res: Reservations, ids: set<Id>, snaps: map<Id, Snapshot>)
    ensures Increasing([OrderLock(order)] + SettleLocks(res, ids, snaps))
  {
    assert [OrderLock(order)] + SettleLocks(res, ids, snaps) ==
      [OrderLock(order)] + SnapshotLocks(SortedIds(Touched(res, ids) * snaps.Keys)) + ReservationLocks(SortedIds(ids * res.Keys));
    SortedIdsSorted(Touched(res, ids) * snaps.Keys);
    SortedIdsSorted(ids * res.Keys);
    SettlementOrdered(order, SortedIds(Touched(res, ids) * snaps.Keys), SortedIds(ids * res.Keys));
  }

  // ---- Every row a transaction rewrites is one it has locked.

  ghost predicate OrdersLocked(a: map<Id, Order>, b: map<Id, Order>, locks: seq<Lock>) {
    forall k :: k in a && !(k in b && b[k] == a[k]) ==> OrderLock(k) in locks
  }

  ghost predicate StockLocked(a: map<Id, Snapshot>, b: map<Id, Snapshot>, locks: seq<Lock>) {
    forall k :: k in a && !(k in b && b[k] == a[k]) ==> SnapshotLock(k) in locks
  }

  ghost predicate ReservationsLocked(a: Reservations, b: Reservations, locks: seq<Lock>) {
    forall k :: k in a && !(k in b && b[k] == a[k]) ==> ReservationLock(k) in locks
  }

  ghost predicate CheckoutLocked(t: Tables, t': Tables, locks: seq<Lock>) {
    && (forall k :: k in t.sessions && !(k in t'.sessions && t'.sessions[k] == t.sessions[k]) ==> SessionLock(k) in locks)
    && (forall k :: k in t.carts && !(k in t'.carts && t'.carts[k] == t.carts[k]) ==> CartLock(k) in locks)
    && (forall k :: k in t'.sequences && !(k in t.sequences && t.sequences[k] == t'.sequences[k]) ==> SequenceLock(k) in locks)
  }

  /** New rows aside, of which nobody can hold a lock. */
  ghost predicate WritesLocked(t: Tables, t': Tables, locks: seq<Lock>) {
    && OrdersLocked(t.orders, t'.orders, locks) && StockLocked(t.snapshots, t'.snapshots, locks)
    && ReservationsLocked(t.reservations, t'.reservations, locks) && CheckoutLocked(t, t', locks)
  }

  lemma NothingWritten(t: Tables, locks: seq<Lock>)
    ensures WritesLocked(t, t, locks)
  {
  }

  lemma SnapshotLocked(ids: set<Id>, k: Id)
    requires k in ids
    ensures SnapshotLock(k) in SnapshotLocks(SortedIds(ids))
  {
    SortedIdsSorted(ids);
    var s := SortedIds(ids);
    var i :| 0 <= i < |s| && s[i] == k;
    assert SnapshotLocks(s)[i] == SnapshotLock(k);
  }

  lemma ReservationLocked(ids: set<Id>, k: Id)
    requires k in ids
    ensures ReservationLock(k) in ReservationLocks(SortedIds(ids))
  {
    SortedIdsSorted(ids);
    var s := SortedIds(ids);
    var i :| 0 <= i < |s| && s[i] == k;
    assert ReservationLocks(s)[i] == ReservationLock(k);
  }

  lemma SettledStockLocked(d: Disposition, snaps: map<Id, Snapshot>, res: Reservations, ids: set<Id>, locks: seq<Lock>)
    requires forall l :: l in SettleLocks(res, ids, snaps) ==> l in locks
    ensures StockLocked(snaps, SettledSnapshots(d, snaps, res, ids, Touched(res, ids)), locks)
  {
    hide SnapshotLocks, ReservationLocks, SettledRow, QuantityOn, Touched;
    forall k | k in Touched(res, ids) && k in snaps ensures SnapshotLock(k) in locks {
      SnapshotLocked(Touched(res, ids) * snaps.Keys, k);
    }
  }

  lemma MarkedLocked(snaps: map<Id, Snapshot>, res: Reservations, ids: set<Id>, status: ReservationStatus, locks: seq<Lock>)
    requires forall l :: l in SettleLocks(res, ids, snaps) ==> l in locks
    ensures ReservationsLocked(res, Marked(res, ids, status), locks)
  {
    hide SnapshotLocks, ReservationLocks, Touched;
    forall k | k in ids && k in res ensures ReservationLock(k) in locks {
      ReservationLocked(ids * res.Keys, k);
    }
  }

  lemma SettledWritesLocked(t: Tables, d: Disposition, ids: set<Id>, locks: seq<Lock>)
    requires forall l :: l in SettleLocks(t.reservations, ids, t.snapshots) ==> l in locks
    ensures var u := Settled(t, d, ids);
            StockLocked(t.snapshots, u.snapshots, locks) && ReservationsLocked(t.reservations, u.reservations, locks)
  {
    hide SettleLocks, StockLocked, ReservationsLocked, SettledSnapshots, SettledMovements, Marked, Touched;
    SettledStockLocked(d, t.snapshots, t.reservations, ids, locks);
    MarkedLocked(t.snapshots, t.reservations, ids, StatusAfter(d), locks);
  }

  lemma TransitionedOnlyOrder(t: Tables, id: Id, to: OrderStatus, actor: Authority, reason: Option<string>, now: Time)
    requires id in t.orders
    ensures var u := Transitioned(t, id, to, actor, reason, now);
            && u.snapshots == t.snapshots && u.reservations == t.reservations
            && u.sessions == t.sessions && u.carts == t.carts && u.sequences == t.sequences
            && forall k :: k in t.orders && k != id ==> k in u.orders && u.orders[k] == t.orders[k]
  {
    hide Append, MovedOrder;
  }

  lemma TransitionLocked(t: Tables, id: Id, to: OrderStatus, actor: Authority, reason: Option<string>, now: Time)
    requires id in t.orders
    ensures WritesLocked(t, Transitioned(t, id, to, actor, reason, now), [OrderLock(id)])
  {
    hide Append, MovedOrder;
  }

  lemma SettleWritesLocked(t: Tables, id: Id, d: Disposition, to: OrderStatus, actor: Authority,
      reason: Option<string>, now: Time)
    requires id in t.orders
    ensures var ids := ItemReservations(t.orders[id].items);
            WritesLocked(t, Settle(t, id, d, to, actor, reason, now).0, [OrderLock(id)] + SettleLocks(t.reservations, ids, t.snapshots))
  {
    hide SettleFault, SettleLocks, ItemReservations, Settled, Transitioned, MovedOrder, WritesLocked;
    var ids := ItemReservations(t.orders[id].items);
    NothingWritten(t, [OrderLock(id)] + SettleLocks(t.reservations, ids, t.snapshots));
    MovedWritesLocked(t, id, d, ids, to, actor, reason, now);
  }

  lemma MovedWritesLocked(t: Tables, id: Id, d: Disposition, ids: set<Id>, to: OrderStatus, actor: Authority,
      reason: Option<string>, now: Time)
    requires id in t.orders
    ensures WritesLocked(t, Transitioned(Settled(t, d, ids), id, to, actor, reason, now),
                         [OrderLock(id)] + SettleLocks(t.reservations, ids, t.snapshots))
  {
    hide SettleLocks, Settled, StockLocked, ReservationsLocked, Transitioned, MovedOrder, WritesLocked;
    var locks := [OrderLock(id)] + SettleLocks(t.reservations, ids, t.snapshots);
    SettledWritesLocked(t, d, ids, locks);
    SettledOnlyStock(t, d, ids);
    TransitionedOnlyOrder(Settled(t, d, ids), id, to, actor, reason, now);
    StockAndOrder(t, Settled(t, d, ids), Transitioned(Settled(t, d, ids), id, to, actor, reason, now), id, locks);
  }

  lemma StockAndOrder(t: Tables, u: Tables, v: Tables, id: Id, locks: seq<Lock>)
    requires StockLocked(t.snapshots, u.snapshots, locks) && ReservationsLocked(t.reservations, u.reservations, locks)
    requires u.orders == t.orders && u.sessions == t.sessions && u.carts == t.carts && u.sequences == t.sequences
    requires v.snapshots == u.snapshots && v.reservations == u.reservations
    requires v.sessions == u.sessions && v.carts == u.carts && v.sequences == u.sequences
    requires OrderLock(id) in locks && forall k :: k in u.orders && k != id ==> k in v.orders && v.orders[k] == u.orders[k]
    ensures WritesLocked(t, v, locks)
  {
    hide StockLocked, ReservationsLocked;
  }

  lemma SettledOnlyStock(t: Tables, d: Disposition, ids: set<Id>)
    ensures var u := Settled(t, d, ids);
            u.orders == t.orders && u.sessions == t.sessions && u.carts == t.carts && u.sequences == t.sequences
  {
    hide SettledSnapshots, SettledMovements, Marked, Touched;
  }

  // ---- Lemmas of the loops.

  lemma FaultStep(d: Disposition, rows: seq<Reservation>, i: nat, deadline: Time, now: Time)
    requires i < |rows| && FirstFault(d, rows, deadline, now) == FirstFault(d, rows[i..], deadline, now)
    ensures RowFault(d, rows[i], deadline, now).Some? ==> FirstFault(d, rows, deadline, now) == RowFault(d, rows[i], deadline, now)
    ensures RowFault(d, rows[i], deadline, now).None? ==> FirstFault(d, rows, deadline, now) == FirstFault(d, rows[i + 1..], deadline, now)
  {
    assert rows[i..][0] == rows[i] && rows[i..][1..] == rows[i + 1..];
  }

  lemma MisfitStep(d: Disposition, snaps: map<Id, Snapshot>, deltas: seq<Delta>, i: nat)
    requires i < |deltas| && FirstMisfit(d, snaps, deltas) == FirstMisfit(d, snaps, deltas[i..])
    ensures DeltaFault(d, snaps, deltas[i]).Some? ==> FirstMisfit(d, snaps, deltas) == DeltaFault(d, snaps, deltas[i])
    ensures DeltaFault(d, snaps, deltas[i]).None? ==> FirstMisfit(d, snaps, deltas) == FirstMisfit(d, snaps, deltas[i + 1..])
  {
    assert deltas[i..][0] == deltas[i] && deltas[i..][1..] == deltas[i + 1..];
  }

  lemma {:induction false} AtMostItems(items: seq<OrderItem>)
    ensures |ItemReservations(items)| <= |items|
  {
    if items != [] {
      var n := |items| - 1;
      AtMostItems(items[..n]);
      assert ItemReservations(items) == ItemReservations(items[..n]) + {items[n].reservation} by {
        assert forall i :: 0 <= i < n ==> items[..n][i] == items[i];
        assert forall k :: k in ItemReservations(items) ==> k in ItemReservations(items[..n]) || k == items[n].reservation;
      }
    }
  }

  /** As many rows as items: every reservation was found. */
  lemma AllFound(res: Reservations, o: Order)
    requires |FoundRows(res, o)| == |o.items|
    ensures ItemReservations(o.items) <= res.Keys
    ensures FoundRows(res, o) == LockedRows(res, SortedIds(ItemReservations(o.items)))
  {
    var ids := ItemReservations(o.items);
    AtMostItems(o.items);
    var found := ids * res.Keys;
    assert |found| >= |ids|;
    assert ids == found + (ids - found) && |ids| == |found| + |ids - found|;
    assert ids - found == {};
    assert found == ids;
  }

  lemma OneMoreSnapshot(d: Disposition, snaps: map<Id, Snapshot>, res: Reservations, ids: set<Id>, done: set<Id>, s: Id)
    requires s in snaps && s !in done
    ensures SettledSnapshots(d, snaps, res, ids, done + {s}) ==
            SettledSnapshots(d, snaps, res, ids, done)[s := SettledRow(d, snaps[s], QuantityOn(res, ids, s))]
  {
    hide SettledRow, QuantityOn;
  }

  lemma OneMoreMovement(d: Disposition, log: map<Id, seq<Movement>>, snaps: map<Id, Snapshot>, res: Reservations,
      ids: set<Id>, done: set<Id>, s: Id)
    requires s in snaps && s !in done
    ensures var q := QuantityOn(res, ids, s);
            SettledMovements(d, log, snaps, res, ids, done + {s}) ==
            Append(SettledMovements(d, log, snaps, res, ids, done), s, MovementFor(d, q, SettledRow(d, snaps[s], q)))
  {
    hide SettledRow, QuantityOn, MovementFor;
  }

  function Picked(snaps: map<Id, Snapshot>, ids: set<Id>): map<Id, Snapshot> {
    map k | k in ids && k in snaps :: snaps[k]
  }

  lemma OneMorePicked(snaps: map<Id, Snapshot>, ids: set<Id>, k: Id)
    requires k in snaps
    ensures Picked(snaps, ids + {k}) == Picked(snaps, ids)[k := snaps[k]]
  {
  }

  lemma PickedAll(snaps: map<Id, Snapshot>, ids: set<Id>)
    ensures Picked(snaps, ids * snaps.Keys) == Picked(snaps, ids)
  {
  }

  // ---- The locking statements.

  /** SELECT ... ORDER BY id ASC FOR UPDATE over snapshots. */
  method LockSnapshotsByIDs(table: map<Id, Snapshot>, ids: set<Id>) returns (rows: map<Id, Snapshot>, taken: seq<Lock>)
    ensures rows == Picked(table, ids) && taken == SnapshotLocks(SortedIds(ids * table.Keys))
  {
    hide Picked, Elements, Distinct;
    var sorted := SortedIds(ids * table.Keys);
    SortedElements(ids * table.Keys);
    PickedAll(table, ids);
    NonePicked(table);
    NoElements(sorted);
    rows, taken := map[], [];
    var i := 0;
    while i < |sorted|
      invariant 0 <= i <= |sorted|
      invariant taken == SnapshotLocks(sorted)[..i]
      invariant rows == Picked(table, Elements(sorted[..i]))
    {
      OneMoreElement(sorted, i);
      OneMorePicked(table, Elements(sorted[..i]), sorted[i]);
      rows := rows[sorted[i] := table[sorted[i]]];
      taken := taken + [SnapshotLock(sorted[i])];
      i := i + 1;
    }
    assert sorted[..i] == sorted && SnapshotLocks(sorted)[..i] == SnapshotLocks(sorted);
  }

  /** SELECT ... ORDER BY id ASC FOR UPDATE over reservations. */
  method LockReservationsByIDs(table: Reservations, ids: set<Id>) returns (rows: seq<Reservation>, taken: seq<Lock>)
    ensures rows == LockedRows(table, SortedIds(ids * table.Keys))
    ensures taken == ReservationLocks(SortedIds(ids * table.Keys))
  {
    var sorted := SortedIds(ids * table.Keys);
    rows, taken := [], [];
    var i := 0;
    while i < |sorted|
      invariant 0 <= i <= |sorted|
      invariant taken == ReservationLocks(sorted)[..i]
      invariant rows == LockedRows(table, sorted)[..i]
    {
      rows := rows + [table[sorted[i]]];
      taken := taken + [ReservationLock(sorted[i])];
      i := i + 1;
    }
    assert ReservationLocks(sorted)[..i] == ReservationLocks(sorted);
  }

  /** The reservation checks, row by row. */
  method CheckRows(d: Disposition, rows: seq<Reservation>, deadline: Time, now: Time) returns (fault: Option<Error>)
    ensures fault == FirstFault(d, rows, deadline, now)
  {
    var i := 0;
    assert rows[0..] == rows;
    while i < |rows|
      invariant 0 <= i <= |rows|
      invariant FirstFault(d, rows, deadline, now) == FirstFault(d, rows[i..], deadline, now)
    {
      FaultStep(d, rows, i, deadline, now);
      var r := rows[i];
      if d == Consume {
        if r.status != Held { return Some(InvalidTransition); }
        if r.expiresAt.None? || now >= r.expiresAt.value { return Some(InvalidTransition); }
        if r.expiresAt.value != deadline { return Some(InternalError); }
      } else {
        if r.status != (if d == Restock then Consumed else Held) { return Some(InternalError); }
        if r.expiresAt.None? || r.expiresAt.value != deadline { return Some(InternalError); }
      }
      i := i + 1;
    }
    fault := None;
  }

  /** The new counters of one snapshot and its movement, or the check that fails. */
  method SettleOne(d: Disposition, snap: Snapshot, q: int) returns (r: Result<(Snapshot, Movement)>)
    ensures var row := SettledRow(d, snap, q);
            r == if Acceptable(d, row) then Ok((row, MovementFor(d, q, row))) else Err(Refusal(d))
  {
    var row, movement;
    match d {
      case Consume =>
        row := snap.(onHand := snap.onHand - q, reserved := snap.reserved - q, version := snap.version + 1);
        if row.onHand < 0 || row.reserved < 0 || row.reserved > row.onHand { return Err(InsufficientInventory); }
        movement := Movement(ReservationConsumed, -q, row.onHand, row.reserved);
      case Release =>
        row := snap.(reserved := snap.reserved - q, version := snap.version + 1);
        if row.reserved < 0 { return Err(InternalError); }
        movement := Movement(ReservationReleased, 0, row.onHand, row.reserved);
      case Expire =>
        row := snap.(reserved := snap.reserved - q, version := snap.version + 1);
        if row.reserved < 0 { return Err(InternalError); }
        movement := Movement(ReservationExpired, 0, row.onHand, row.reserved);
      case Restock =>
        row := snap.(onHand := snap.onHand + q, version := snap.version + 1);
        movement := Movement(CancellationRestock, q, row.onHand, row.reserved);
    }
    r := Ok((row, movement));
  }

  // ---- What the stock writers promise.

  /** Every invariant survives, and no store's public output moves under an old generation. */
  ghost predicate StockSafe(t: Tables, t': Tables) {
    && (Commands.Inv(t) ==> Commands.Inv(t'))
    && (forall store, q :: Cache.Honest(t, t', store, q))
  }

  lemma StockWriterKeeps(t: Tables, id: Id, c: Runs.StockCommand)
    requires c.NewSnapshot? ==> id != NO_ID
    ensures StockSafe(t, Runs.StockStep(t, id, c))
  {
    hide Commands.Inv, Cache.Honest, Runs.StockStep;
    if Commands.Inv(t) { Runs.StockStepKeepsInv(t, id, c); }
    forall store: Id, q: Cache.Query { Cache.StockWritersAreHonest(t, id, c, store, q); }
  }

  /** A new row needs an unused identifier and pair of location and SKU; nothing but that
      row appears, with nothing reserved and no movement. */
  ghost predicate CreatesRow(t: Tables, t': Tables, id: Id, location: Id, sku: Id, onHand: int, r: Result<Snapshot>) {
    && (r.Err? ==> t' == t)
    && (r.Ok? <==> FitsNew(t, id, location, sku) && 0 <= onHand)
    && (r.Ok? ==> r.value == Snapshot(location, sku, onHand, onHand, 0, 0) && Available(r.value) == onHand)
    && (r.Ok? ==> t'.snapshots == t.snapshots[id := r.value] && t'.movements == t.movements && t'.reservations == t.reservations)
  }

  ghost predicate FitsNew(t: Tables, id: Id, location: Id, sku: Id) {
    && location != NO_ID && sku != NO_ID && location in t.catalog.locations && sku in t.catalog.skus && id !in t.snapshots
    && forall k :: k in t.snapshots ==> t.snapshots[k].location != location || t.snapshots[k].sku != sku
  }

  lemma CreateExact(t: Tables, id: Id, location: Id, sku: Id, onHand: int)
    ensures var (t', r) := T.CreateInventorySnapshot(t, id, location, sku, onHand);
            CreatesRow(t, t', id, location, sku, onHand, r)
  {
    hide Catalogue.StoresBySku, Catalogue.Bumped;
  }

  /** An adjustment of an existing row succeeds exactly when what is reserved still fits;
      it moves that row's quantity and records one movement with the same delta. */
  ghost predicate AdjustsRow(t: Tables, t': Tables, id: Id, delta: int, movementType: string, r: Result<Snapshot>) {
    && (r.Err? ==> t' == t)
    && (r.Ok? <==> id != NO_ID && id in t.snapshots && !Blank(movementType) && AdjustFits(t.snapshots[id], delta))
    && (r.Ok? ==> r.value == t.snapshots[id].(onHand := t.snapshots[id].onHand + delta, version := t.snapshots[id].version + 1))
    && (r.Ok? ==> t'.snapshots == t.snapshots[id := r.value] && t'.reservations == t.reservations)
    && (r.Ok? ==> t'.movements == t.movements[id := RowsAt(t.movements, id) +
                    [Movement(Adjusted(movementType), delta, r.value.onHand, r.value.reserved)]])
  }

  /** A removal leaves what is reserved, and never a negative quantity. */
  predicate AdjustFits(s: Snapshot, delta: int) {
    delta > 0 || (delta < 0 && s.reserved <= s.onHand + delta && 0 <= s.onHand + delta)
  }

  lemma BumpOnly(t: Tables, stores: set<Id>)
    ensures var u := Bump(t, stores);
            u.snapshots == t.snapshots && u.reservations == t.reservations && u.movements == t.movements
  {
    hide Catalogue.Bumped;
  }

  lemma AdjustExact(t: Tables, id: Id, delta: int, movementType: string)
    ensures var (t', r) := T.AdjustInventory(t, id, delta, movementType);
            AdjustsRow(t, t', id, delta, movementType, r)
  {
    hide Bump, RowsAt, Blank, Catalogue.StoresByInventorySnapshot;
    if T.AdjustInventory(t, id, delta, movementType).1.Ok? {
      var row := AdjustedRow(t.snapshots[id], delta);
      var m := Movement(Adjusted(movementType), delta, row.onHand, row.reserved);
      BumpOnly(t.(snapshots := t.snapshots[id := row], movements := Append(t.movements, id, m)),
               Catalogue.StoresByInventorySnapshot(t.catalog, t.snapshots, id));
    }
  }

  /** A standalone hold succeeds exactly when the quantity is positive and available and
      the identifiers are good; it takes that much of what is available. */
  ghost predicate ReservesRow(t: Tables, t': Tables, id: Id, q: int, token: Id, reservation: Id, r: Result<Reservation>) {
    && (r.Err? ==> t' == t)
    && (r.Ok? <==> id != NO_ID && token != NO_ID && id in t.snapshots && 0 < q <= Available(t.snapshots[id]) && reservation !in t.reservations)
    && (r.Ok? ==> t'.snapshots == t.snapshots[id := t.snapshots[id].(
                    reserved := t.snapshots[id].reserved + q, version := t.snapshots[id].version + 1)])
    && (r.Ok? ==> Available(t'.snapshots[id]) == Available(t.snapshots[id]) - q && t'.reservations == t.reservations[reservation := r.value])
    && (r.Ok? ==> r.value.snapshot == id && r.value.quantity == q && r.value.status == Held && t'.movements == t.movements)
  }

  lemma ReserveExact(t: Tables, id: Id, q: int, token: Id, reservation: Id, expiresAt: Option<Time>)
    ensures var (t', r) := T.ReserveInventory(t, id, q, token, reservation, expiresAt);
            ReservesRow(t, t', id, q, token, reservation, r)
  {
    hide Bump, Catalogue.StoresByInventorySnapshot;
    if T.ReserveInventory(t, id, q, token, reservation, expiresAt).1.Ok? {
      BumpOnly(t.(snapshots := t.snapshots[id := ReservedRow(t.snapshots[id], q)],
                  reservations := t.reservations[reservation := Reservation(id, q, Held, expiresAt)]),
               Catalogue.StoresByInventorySnapshot(t.catalog, t.snapshots, id));
    }
  }

  class Repository {
    var tables: Tables
    /** Row locks of the running transaction, in the order it took them. */
    var locks: seq<Lock>

    constructor (tables: Tables)
      ensures this.tables == tables && locks == []
    {
      this.tables, locks := tables, [];
    }

    /** One UPDATE of a snapshot and one movement row per aggregate. */
    method SettleSnapshots(tx: Tables, d: Disposition, locked: map<Id, Snapshot>, deltas: seq<Delta>,
        ghost ids: set<Id>)
      returns (r: Result<(map<Id, Snapshot>, map<Id, seq<Movement>>)>)
      requires locked == Picked(tx.snapshots, Touched(tx.reservations, ids))
      requires Aggregates(tx.reservations, ids, deltas)
      ensures var fault := FirstMisfit(d, tx.snapshots, deltas);
              var touched := Touched(tx.reservations, ids);
              r == if fault.Some? then Err(fault.value)
                   else Ok((SettledSnapshots(d, tx.snapshots, tx.reservations, ids, touched),
                            SettledMovements(d, tx.movements, tx.snapshots, tx.reservations, ids, touched)))
    {
      hide SettledSnapshots, SettledMovements, SettledRow, MovementFor, Acceptable, QuantityOn, FirstMisfit, Elements, Distinct, Touched;
      ghost var sorted := SortedIds(Touched(tx.reservations, ids));
      SortedElements(Touched(tx.reservations, ids));
      NothingSettled(d, tx.snapshots, tx.movements, tx.reservations, ids);
      NoDeltas(d, tx.snapshots);
      NoElements(sorted);
      var snapshots, movements := tx.snapshots, tx.movements;
      var i := 0;
      assert deltas[0..] == deltas;
      while i < |deltas|
        invariant 0 <= i <= |deltas|
        invariant snapshots == SettledSnapshots(d, tx.snapshots, tx.reservations, ids, Elements(sorted[..i]))
        invariant movements == SettledMovements(d, tx.movements, tx.snapshots, tx.reservations, ids, Elements(sorted[..i]))
        invariant FirstMisfit(d, tx.snapshots, deltas) == FirstMisfit(d, tx.snapshots, deltas[i..])
      {
        MisfitStep(d, tx.snapshots, deltas, i);
        var agg := deltas[i];
        if agg.snapshot !in locked {
          return Err(InvalidInput);
        }
        var one := SettleOne(d, locked[agg.snapshot], agg.quantity);
        if one.Err? {
          return Err(one.error);
        }
        OneMoreElement(sorted, i);
        OneMoreSnapshot(d, tx.snapshots, tx.reservations, ids, Elements(sorted[..i]), agg.snapshot);
        OneMoreMovement(d, tx.movements, tx.snapshots, tx.reservations, ids, Elements(sorted[..i]), agg.snapshot);
        snapshots := snapshots[agg.snapshot := one.value.0];
        movements := Append(movements, agg.snapshot, one.value.1);
        i := i + 1;
      }
      assert sorted[..i] == sorted;
      assert deltas[i..] == [];
      r := Ok((snapshots, movements));
    }

    /** Both locking statements of a settlement. */
    method LockStock(snaps: map<Id, Snapshot>, res: Reservations,
        ids: set<Id>) returns (snapshots: map<Id, Snapshot>, rows: seq<Reservation>)
      modifies this`locks
      ensures snapshots == Picked(snaps, Touched(res, ids)) && rows == LockedRows(res, SortedIds(ids * res.Keys))
      ensures locks == old(locks) + SettleLocks(res, ids, snaps)
    {
      hide Touched, Picked, LockedRows, SnapshotLocks, ReservationLocks;
      var first, second;
      snapshots, first := LockSnapshotsByIDs(snaps, Touched(res, ids));
      locks := locks + first;
      rows, second := LockReservationsByIDs(res, ids);
      locks := locks + second;
      Regroup(old(locks), first, second);
    }

    /** The fail-closed checks, then the rewrites of stock. */
    method SettleStock(tx: Tables, d: Disposition, snapshots: map<Id, Snapshot>, rows: seq<Reservation>, o: Order,
        now: Time) returns (r: Result<Tables>)
      requires NO_ID !in ItemReservations(o.items)
      requires snapshots == Picked(tx.snapshots, Touched(tx.reservations, ItemReservations(o.items))) && rows == FoundRows(tx.reservations, o)
      ensures var fault := SettleFault(tx.snapshots, tx.reservations, o, d, now);
              r == if fault.Some? then Err(fault.value) else Ok(Settled(tx, d, ItemReservations(o.items)))
    {
      hide Touched, SettledSnapshots, SettledMovements, Marked, FirstFault, FirstMisfit, Picked, DeltasOf, FoundRows, ItemReservations, Aggregates, LockedRows;
      if |rows| != |o.items| { return Err(InternalError); }
      AllFound(tx.reservations, o);
      var fault := CheckRows(d, rows, o.deadline, now);
      if fault.Some? { return Err(fault.value); }
      var ids := ItemReservations(o.items);
      var deltas := AggregateReservationsBySnapshot(rows);
      DeltasAggregate(tx.reservations, ids, rows, deltas);
      var stock := SettleSnapshots(tx, d, snapshots, deltas, ids);
      if stock.Err? { return Err(stock.error); }
      var reservations := Marked(tx.reservations, ids, StatusAfter(d));
      r := Ok(tx.(snapshots := stock.value.0, movements := stock.value.1, reservations := reservations));
    }

    /** UPDATE orders ... WHERE id = ... AND status = ..., and its RowsAffected. */
    method UpdateOrderRow(tx: Tables, id: Id, from: OrderStatus, row: Order) returns (after: Tables, affected: nat)
      ensures affected == if id in tx.orders && tx.orders[id].status == from then 1 else 0
      ensures after == if affected == 1 then tx.(orders := tx.orders[id := row]) else tx
    {
      if id !in tx.orders || tx.orders[id].status != from { return tx, 0; }
      after, affected := tx.(orders := tx.orders[id := row]), 1;
    }

    /** The order row, its timeline row and its event. The update of the row the
        transaction has locked always finds it in the status read from it: neither the
        conflict of the other commands nor the silent early return of expiry is reached. */
    method MoveOrder(tx: Tables, id: Id, read: Order, to: OrderStatus, actor: Authority, reason: Option<string>,
        now: Time) returns (after: Tables)
      requires id in tx.orders && tx.orders[id] == read
      ensures after == Transitioned(tx, id, to, actor, reason, now)
    {
      hide Append;
      var row := read.(status := to, reason := reason, version := read.version + 1, updatedAt := now);
      var updated, affected := UpdateOrderRow(tx, id, read.status, row);
      if affected == 0 {
        assert false;
      }
      after := updated.(timeline := Append(updated.timeline, id, TimelineRow(Some(read.status), to, actor, now)));
      after := after.(events := Append(after.events, id, OrderEvent(OrderStatusChanged, row.version, to, now)));
    }

    /** Lock, check and rewrite the stock of one order, then the order itself. */
    method SettleOrder(tx: Tables, id: Id, d: Disposition, to: OrderStatus, actor: Authority,
        reason: Option<string>, now: Time)
      returns (r: Result<Tables>)
      requires id in tx.orders
      modifies this`locks
      ensures var (t', s) := Settle(tx, id, d, to, actor, reason, now);
              r == if s.Ok? then Ok(t') else Err(s.error)
      ensures var ids := ItemReservations(tx.orders[id].items);
              locks == old(locks) + (if r.Ok? || locks != old(locks) then SettleLocks(tx.reservations, ids, tx.snapshots) else [])
    {
      hide Touched, Settled, SettleLocks, Transitioned, RowsFault, Picked, LockedRows, ItemReservations;
      var o := tx.orders[id];
      if NO_ID in ItemReservations(o.items) { return Err(InvalidInput); }
      var snapshots, rows := LockStock(tx.snapshots, tx.reservations, ItemReservations(o.items));
      var stock := SettleStock(tx, d, snapshots, rows, o, now);
      if stock.Err? { return Err(stock.error); }
      SettledOrdersSame(tx, d, ItemReservations(o.items));
      var moved := MoveOrder(stock.value, id, o, to, actor, reason, now);
      r := Ok(moved);
    }

    // ---- The order commands.

    /** Commit a settlement, or roll back. */
    method RunSettlement(id: Id, d: Disposition, to: OrderStatus, actor: Authority, reason: Option<string>,
        now: Time) returns (r: Result<Order>)
      requires id in tables.orders && locks == [OrderLock(id)]
      modifies this
      ensures (tables, r) == Settle(old(tables), id, d, to, actor, reason, now)
      ensures Increasing(locks) && WritesLocked(old(tables), tables, locks)
    {
      hide SettleFault, Settled, SettleLocks, ItemReservations, Increasing, MovedOrder, WritesLocked;
      SettleWritesLocked(tables, id, d, to, actor, reason, now);
      NothingWritten(tables, [OrderLock(id)]);
      NothingWritten(tables, [OrderLock(id)] + SettleLocks(tables.reservations, ItemReservations(tables.orders[id].items), tables.snapshots));
      var o := tables.orders[id];
      SettleLocksOrdered(id, tables.reservations, ItemReservations(o.items), tables.snapshots);
      OneOrdered(OrderLock(id));
      SettledOrdersSame(tables, d, ItemReservations(o.items));
      var settled := SettleOrder(tables, id, d, to, actor, reason, now);
      if settled.Err? { return Err(settled.error); }
      tables := settled.value;
      r := Ok(MovedOrder(o, to, reason, now));
    }

    method ConfirmOrder(store: Id, id: Id, now: Time) returns (r: Result<Order>)
      modifies this
      ensures (tables, r) == T.ConfirmOrder(old(tables), store, id, now)
      ensures Increasing(locks) && WritesLocked(old(tables), tables, locks)
    {
      hide Settle, WritesLocked;
      NothingWritten(tables, []);
      NothingWritten(tables, [OrderLock(id)]);
      locks := [];
      if store == NO_ID || id == NO_ID { return Err(InvalidInput); }
      if id !in tables.orders || tables.orders[id].store != store { return Err(NotFound); }
      locks := [OrderLock(id)];
      var o := tables.orders[id];
      if o.status == Confirmed { return Ok(o); }
      if o.status != Pending { return Err(InvalidTransition); }
      if o.deadline <= now { return Err(InvalidTransition); }
      if |o.items| == 0 { return Err(InvalidInput); }
      r := RunSettlement(id, Consume, Confirmed, Seller, o.reason, now);
    }

    method CancelPendingOrder(store: Id, id: Id, authority: Authority, reason: Option<string>,
        now: Time) returns (r: Result<Order>)
      modifies this
      ensures (tables, r) == T.CancelPendingOrder(old(tables), store, id, authority, reason, now)
      ensures Increasing(locks) && WritesLocked(old(tables), tables, locks)
    {
      hide Settle, WritesLocked;
      NothingWritten(tables, []);
      NothingWritten(tables, [OrderLock(id)]);
      locks := [];
      if store == NO_ID || id == NO_ID { return Err(InvalidInput); }
      if authority == Scheduler { return Err(InvalidTransition); }
      if authority != Customer && authority != Seller { return Err(InvalidTransition); }
      if id !in tables.orders || tables.orders[id].store != store { return Err(NotFound); }
      locks := [OrderLock(id)];
      var o := tables.orders[id];
      if o.status == Cancelled { return Ok(o); }
      if o.status != Pending { return Err(InvalidTransition); }
      r := RunSettlement(id, Release, Cancelled, authority, reason, now);
    }

    method CancelConfirmedOrder(store: Id, id: Id, authority: Authority, reason: Option<string>,
        now: Time) returns (r: Result<Order>)
      modifies this
      ensures (tables, r) == T.CancelConfirmedOrder(old(tables), store, id, authority, reason, now)
      ensures Increasing(locks) && WritesLocked(old(tables), tables, locks)
    {
      hide Settle, WritesLocked;
      NothingWritten(tables, []);
      NothingWritten(tables, [OrderLock(id)]);
      locks := [];
      if store == NO_ID || id == NO_ID { return Err(InvalidInput); }
      if authority != Seller { return Err(InvalidTransition); }
      if id !in tables.orders || tables.orders[id].store != store { return Err(NotFound); }
      locks := [OrderLock(id)];
      var o := tables.orders[id];
      if o.status == Cancelled { return Ok(o); }
      if o.status != Confirmed && o.status != Processing { return Err(InvalidTransition); }
      r := RunSettlement(id, Restock, Cancelled, authority, reason, now);
    }

    method ExpirePendingOrder(id: Id, now: Time) returns (r: Result<Option<Order>>)
      modifies this
      ensures (tables, r) == T.ExpirePendingOrder(old(tables), id, now)
      ensures Increasing(locks) && WritesLocked(old(tables), tables, locks)
    {
      hide Settle, WritesLocked;
      NothingWritten(tables, []);
      NothingWritten(tables, [OrderLock(id)]);
      locks := [];
      if id == NO_ID { return Err(InvalidInput); }
      if id !in tables.orders { return Ok(None); }
      locks := [OrderLock(id)];
      var o := tables.orders[id];
      if o.status != Pending { return Ok(Some(o)); }
      if now < o.deadline { return Ok(Some(o)); }
      var settled := RunSettlement(id, Expire, Cancelled, Scheduler, Some("confirmation_timeout"), now);
      r := if settled.Ok? then Ok(Some(settled.value)) else Err(settled.error);
    }

    method AdvanceOrderStatus(store: Id, id: Id, target: OrderStatus, authority: Authority, reason: Option<string>,
        now: Time) returns (r: Result<Order>)
      modifies this
      ensures (tables, r) == T.AdvanceOrderStatus(old(tables), store, id, target, authority, reason, now)
      ensures Increasing(locks) && WritesLocked(old(tables), tables, locks)
    {
      hide WritesLocked, Transitioned, MovedOrder;
      NothingWritten(tables, []);
      NothingWritten(tables, [OrderLock(id)]);
      locks := [];
      if store == NO_ID || id == NO_ID { return Err(InvalidInput); }
      if id !in tables.orders || tables.orders[id].store != store { return Err(NotFound); }
      locks := [OrderLock(id)];
      var o := tables.orders[id];
      if o.status == target { return Ok(o); }
      if !NeutralAdvance(o.status, target, authority) { return Err(InvalidTransition); }
      var fault := ValidateOrderTransition(Some(o.status), authority, target, o.deadline, now);
      if fault.Some? { return Err(fault.value); }
      var why := if reason.Some? then reason else o.reason;
      TransitionLocked(tables, id, target, authority, why, now);
      tables := MoveOrder(tables, id, o, target, authority, why, now);
      r := Ok(MovedOrder(o, target, why, now));
    }

    // ---- Stock writers; the revision bump runs in the same transaction.

    method CreateInventorySnapshot(id: Id, location: Id, sku: Id, onHand: int) returns (r: Result<Snapshot>)
      modifies this
      ensures (tables, r) == T.CreateInventorySnapshot(old(tables), id, location, sku, onHand)
      ensures id != NO_ID ==> StockSafe(old(tables), tables)
      ensures CreatesRow(old(tables), tables, id, location, sku, onHand, r)
    {
      hide PairTaken, Catalogue.StoresBySku, Catalogue.Bumped, StockSafe, CreatesRow;
      if id != NO_ID { StockWriterKeeps(tables, id, Runs.NewSnapshot(location, sku, onHand)); }
      CreateExact(tables, id, location, sku, onHand);
      locks := [];
      if location == NO_ID || sku == NO_ID || onHand < 0 { return Err(InvalidInput); }
      if id in tables.snapshots || PairTaken(tables.snapshots, location, sku) { return Err(Conflict); }
      if location !in tables.catalog.locations || sku !in tables.catalog.skus { return Err(InvalidInput); }
      var row := Snapshot(location, sku, onHand, onHand, 0, 0);
      var tx := tables.(snapshots := tables.snapshots[id := row]);
      tables := tx.(revisions := Catalogue.Bumped(tx.revisions, Catalogue.StoresBySku(tx.catalog, sku)));
      r := Ok(row);
    }

    /** A positive delta is applied unconditionally, a negative one only if what is
        reserved still fits. */
    method AdjustInventory(id: Id, delta: int, movementType: string) returns (r: Result<Snapshot>)
      modifies this
      ensures (tables, r) == T.AdjustInventory(old(tables), id, delta, movementType)
      ensures StockSafe(old(tables), tables) && AdjustsRow(old(tables), tables, id, delta, movementType, r)
    {
      hide Catalogue.StoresByInventorySnapshot, Catalogue.Bumped, Append, Blank, StockSafe, AdjustsRow;
      StockWriterKeeps(tables, id, Runs.Adjust(delta, movementType));
      AdjustExact(tables, id, delta, movementType);
      locks := [];
      if id == NO_ID || Blank(movementType) { return Err(InvalidInput); }
      if delta == 0 { return Err(InvalidInput); }
      if delta > 0 {
        if id !in tables.snapshots { return Err(Conflict); }
      } else {
        if id !in tables.snapshots { return Err(InsufficientInventory); }
        var at := tables.snapshots[id].onHand + delta;
        if at < tables.snapshots[id].reserved || at < 0 { return Err(InsufficientInventory); }
      }
      var row := tables.snapshots[id].(onHand := tables.snapshots[id].onHand + delta, version := tables.snapshots[id].version + 1);
      SelectorSame(tables.catalog, tables.snapshots, id, row);
      var tx := tables.(snapshots := tables.snapshots[id := row]);
      tx := tx.(movements := Append(tx.movements, id, Movement(Adjusted(movementType), delta, row.onHand, row.reserved)));
      tables := tx.(revisions := Catalogue.Bumped(tx.revisions, Catalogue.StoresByInventorySnapshot(tx.catalog, tx.snapshots, id)));
      r := Ok(row);
    }

    method ReserveInventory(id: Id, q: int, token: Id, reservation: Id,
        expiresAt: Option<Time>) returns (r: Result<Reservation>)
      modifies this
      ensures (tables, r) == T.ReserveInventory(old(tables), id, q, token, reservation, expiresAt)
      ensures StockSafe(old(tables), tables) && ReservesRow(old(tables), tables, id, q, token, reservation, r)
    {
      hide Catalogue.StoresByInventorySnapshot, Catalogue.Bumped, StockSafe, ReservesRow;
      StockWriterKeeps(tables, id, Runs.Reserve(q, token, reservation, expiresAt));
      ReserveExact(tables, id, q, token, reservation, expiresAt);
      locks := [];
      if id == NO_ID || token == NO_ID || q <= 0 { return Err(InvalidInput); }
      if id !in tables.snapshots || tables.snapshots[id].onHand - tables.snapshots[id].reserved < q { return Err(InsufficientInventory); }
      if reservation in tables.reservations { return Err(Conflict); }
      var row := tables.snapshots[id].(reserved := tables.snapshots[id].reserved + q, version := tables.snapshots[id].version + 1);
      SelectorSame(tables.catalog, tables.snapshots, id, row);
      var held := Reservation(id, q, Held, expiresAt);
      var tx := tables.(snapshots := tables.snapshots[id := row], reservations := tables.reservations[reservation := held]);
      tables := tx.(revisions := Catalogue.Bumped(tx.revisions, Catalogue.StoresByInventorySnapshot(tx.catalog, tx.snapshots, id)));
      r := Ok(held);
    }
  }

  /** The selector looks at the row's SKU and location only, so it may run after the write. */
  lemma SelectorSame(c: Catalog, snaps: map<Id, Snapshot>, id: Id, row: Snapshot)
    requires id in snaps && row.sku == snaps[id].sku && row.location == snaps[id].location
    ensures Catalogue.StoresByInventorySnapshot(c, snaps[id := row], id) == Catalogue.StoresByInventorySnapshot(c, snaps, id)
  {
  }

  lemma OneOrdered(l: Lock)
    ensures Increasing([l])
  {
  }

  lemma SettledOrdersSame(t: Tables, d: Disposition, ids: set<Id>)
    ensures Settled(t, d, ids).orders == t.orders
  {
    hide SettledSnapshots, SettledMovements, Marked, Touched;
  }

  lemma Regroup(a: seq<Lock>, b: seq<Lock>, c: seq<Lock>)
    ensures a + b + c == a + (b + c)
  {
  }

  /** deltas are the touched snapshots in order, each with its aggregate quantity. */
  ghost predicate Aggregates(res: Reservations, ids: set<Id>, deltas: seq<Delta>) {
    && |deltas| == |SortedIds(Touched(res, ids))|
    && forall i :: 0 <= i < |deltas| ==> deltas[i] == Delta(SortedIds(Touched(res, ids))[i], QuantityOn(res, ids, deltas[i].snapshot))
  }

  lemma DeltasAggregate(res: Reservations, ids: set<Id>, rows: seq<Reservation>, deltas: seq<Delta>)
    requires ids <= res.Keys && rows == LockedRows(res, SortedIds(ids))
    requires |deltas| == |SortedIds(SnapshotsOf(rows))|
    requires forall i :: 0 <= i < |deltas| ==>
      deltas[i] == Delta(SortedIds(SnapshotsOf(rows))[i], QuantityIn(rows, SortedIds(SnapshotsOf(rows))[i]))
    ensures Aggregates(res, ids, deltas) && deltas == DeltasOf(rows)
  {
    TouchedBy(res, ids);
    forall i | 0 <= i < |deltas| ensures deltas[i].quantity == QuantityOn(res, ids, deltas[i].snapshot) {
      DeltaQuantity(res, ids, deltas[i].snapshot);
    }
  }

  lemma NoDeltas(d: Disposition, snaps: map<Id, Snapshot>)
    ensures FirstMisfit(d, snaps, []) == None
  {
  }

  lemma NonePicked(snaps: map<Id, Snapshot>)
    ensures Picked(snaps, {}) == map[]
  {
  }

  lemma NothingSettled(d: Disposition, snaps: map<Id, Snapshot>, log: map<Id, seq<Movement>>, res: Reservations,
      ids: set<Id>)
    ensures SettledSnapshots(d, snaps, res, ids, {}) == snaps && SettledMovements(d, log, snaps, res, ids, {}) == log
  {
  }

  lemma NoElements(s: seq<Id>)
    ensures Elements(s[..0]) == {}
  {
  }

  lemma OneMoreElement(s: seq<Id>, i: nat)
    requires Distinct(s) && i < |s|
    ensures Elements(s[..i + 1]) == Elements(s[..i]) + {s[i]} && s[i] !in Elements(s[..i])
  {
    var t := s[..i + 1];
    forall x ensures x in Elements(t) <==> x in Elements(s[..i]) + {s[i]} {
      if x in Elements(s[..i]) { var k :| 0 <= k < i && s[..i][k] == x; assert t[k] == x; }
      if x in Elements(t) { var k :| 0 <= k <= i && t[k] == x; assert k < i ==> s[..i][k] == x; }
      assert t[i] == s[i];
    }
  }
}
