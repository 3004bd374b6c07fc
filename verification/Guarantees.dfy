/** What every run of the commerce protocols guarantees. */
module Guarantees {
  import opened Base
  import opened Sums
  import opened Records
  import opened Orders
  import opened Inventory
  import opened Fingerprints
  import opened Tables
  import opened Checkout
  import opened Finalize
  import opened Ledger
  import opened Histories
  import opened Sessions
  import opened Placement
  import opened Commands
  import opened Purchases
  import opened Runs

  /** Reached from empty tables by some run. */
  ghost predicate ReachedBy(catalog: Catalog, steps: seq<Step>, t: Tables) {
    Possible(Empty(catalog), steps) && t == Run(Empty(catalog), steps)
  }

  lemma ReachedInv(catalog: Catalog, steps: seq<Step>, t: Tables)
    requires ReachedBy(catalog, steps, t)
    ensures Inv(t)
  {
    hide Inv, Later, Run, Possible;
    EmptyInv(catalog);
    RunKeepsInv(Empty(catalog), steps);
  }

  // ---- Stock.

  /** Conservation: reserved is the held reservations and never exceeds what is on hand;
      on hand is the initial quantity plus all movements, which is the initial quantity
      plus adjustments minus what orders that were not cancelled consumed. */
  lemma StockConserved(catalog: Catalog, steps: seq<Step>, t: Tables, s: Id)
    requires ReachedBy(catalog, steps, t) && s in t.snapshots
    ensures 0 <= t.snapshots[s].reserved <= t.snapshots[s].onHand
    ensures t.snapshots[s].reserved == Sum(t.reservations.Keys, StatusWeight(t.reservations, s, Held))
    ensures t.snapshots[s].onHand == t.snapshots[s].initial + MovedBy(RowsAt(t.movements, s))
    ensures t.snapshots[s].onHand == t.snapshots[s].initial + AdjustedBy(RowsAt(t.movements, s)) -
      Sum(t.reservations.Keys - CancelledReservations(t.orders), StatusWeight(t.reservations, s, Consumed))
  {
    hide ReachedBy;
    ReachedInv(catalog, steps, t);
    assert CountersAt(t.snapshots, t.reservations, s);
    assert HistoryAt(t.snapshots, t.movements, t.reservations, t.orders, s);
  }

  /** Every reservation of an order has the status its order calls for, the order's
      deadline and the line's quantity; no two orders share one. */
  lemma OrdersAgreeWithStock(catalog: Catalog, steps: seq<Step>, t: Tables, id: Id)
    requires ReachedBy(catalog, steps, t) && id in t.orders
    ensures OrderOk(t.reservations, t.orders[id])
    ensures t.orders[id].status in {Pending, Confirmed, Processing, ReadyForShipping, Cancelled}
    ensures forall other :: other in t.orders && other != id ==>
      ItemReservations(t.orders[other].items) !! ItemReservations(t.orders[id].items)
  {
    hide ReachedBy, Inv, BooksOk, OrderOk;
    ReachedInv(catalog, steps, t);
    InvStock(t);
    assert OrderOk(t.reservations, t.orders[id]);
    StatusesReached(t.reservations, t.orders[id]);
  }

  lemma StatusesReached(res: Reservations, o: Order)
    requires OrderOk(res, o)
    ensures o.status in {Pending, Confirmed, Processing, ReadyForShipping, Cancelled}
  {
  }

  // ---- Histories.

  /** The timeline is a path of allowed moves from nothing to the current status, one row
      per version; the outbox events carry versions 1..n and tell the same story; no
      status is visited twice and nothing takes more than five rows. */
  lemma HistoryIsAPath(catalog: Catalog, steps: seq<Step>, t: Tables, id: Id)
    requires ReachedBy(catalog, steps, t) && id in t.orders
    ensures TimelineOk(RowsAt(t.timeline, id), t.orders[id])
    ensures EventsOk(RowsAt(t.events, id), RowsAt(t.timeline, id))
    ensures 1 <= t.orders[id].version <= 5
  {
    hide ReachedBy;
    ReachedInv(catalog, steps, t);
    assert HistoryFor(t.timeline, t.events, id, t.orders[id]);
    VersionBounded(RowsAt(t.timeline, id), t.orders[id], t.orders[id].version - 1);
  }

  // ---- Carts, sessions, orders and numbers.

  /** Finalized sessions and orders are in bijection, through checkout_session_id. */
  lemma SessionsMatchOrders(catalog: Catalog, steps: seq<Step>, t: Tables)
    requires ReachedBy(catalog, steps, t)
    ensures forall id :: id in t.orders ==> Finalized(t, t.orders[id].session)
    ensures forall a, b :: a in t.orders && b in t.orders && t.orders[a].session == t.orders[b].session ==> a == b
    ensures forall s :: Finalized(t, s) ==> s in t.bySession && t.bySession[s] in t.orders && t.orders[t.bySession[s]].session == s
  {
    hide ReachedBy;
    ReachedInv(catalog, steps, t);
    hide StockOk, OrdersOk, TraceOk, CartsOk, NumbersOk;
    forall id | id in t.orders ensures Finalized(t, t.orders[id].session) { assert OrderIndexed(t, id); }
    forall s | Finalized(t, s) ensures s in t.bySession { assert FinalizedOk(t, s); }
    forall a, b | a in t.orders && b in t.orders && t.orders[a].session == t.orders[b].session ensures a == b {
      assert OrderIndexed(t, a) && OrderIndexed(t, b);
    }
  }

  ghost predicate OrderOfCart(t: Tables, id: Id, c: Id) {
    id in t.orders && t.orders[id].session in t.sessions && t.sessions[t.orders[id].session].cart == c
  }

  lemma CheckedOutHasOrder(t: Tables, c: Id)
    requires SessionsOk(t) && CartsOk(t) && SessionIndexOk(t.orders, t.bySession)
    requires c in t.carts && t.carts[c].status == CartCheckedOut
    ensures exists id :: OrderOfCart(t, id, c)
  {
    assert ClosedBySome(t, c);
    var s :| Finalized(t, s) && t.sessions[s].cart == c;
    assert FinalizedOk(t, s);
    assert OrderOfCart(t, t.bySession[s], c);
  }

  lemma OrderedIsCheckedOut(t: Tables, c: Id, id: Id)
    requires IndexesOk(t) && SessionsOk(t) && OrderOfCart(t, id, c)
    ensures c in t.carts && t.carts[c].status == CartCheckedOut && Finalized(t, t.orders[id].session)
    ensures t.orders[id].session in t.bySession && t.bySession[t.orders[id].session] == id
  {
    hide SessionIndexOk, NumberIndexOk;
    assert OrderIndexed(t, id);
    assert FinalizedOk(t, t.orders[id].session);
  }

  /** A cart becomes at most one order, and is checked out exactly when it has one. */
  lemma OneOrderPerCart(catalog: Catalog, steps: seq<Step>, t: Tables, c: Id)
    requires ReachedBy(catalog, steps, t) && c in t.carts
    ensures forall a, b :: OrderOfCart(t, a, c) && OrderOfCart(t, b, c) ==> a == b
    ensures t.carts[c].status == CartCheckedOut <==> exists id :: OrderOfCart(t, id, c)
  {
    hide ReachedBy, StockOk, OrdersOk, TraceOk, NumbersOk, FinalizedOk, OrderIndexed;
    ReachedInv(catalog, steps, t);
    if t.carts[c].status == CartCheckedOut { CheckedOutHasOrder(t, c); }
    forall id | OrderOfCart(t, id, c) { OrderedIsCheckedOut(t, c, id); }
  }

  ghost predicate HasNumber(t: Tables, id: Id, store: Id, n: nat) {
    id in t.orders && t.orders[id].store == store && t.orders[id].number == n
  }

  /** The orders of a store are numbered 100001 upward, each number once, with no gap
      left by attempts that rolled back. */
  lemma NumbersHaveNoGap(catalog: Catalog, steps: seq<Step>, t: Tables, store: Id, n: nat)
    requires ReachedBy(catalog, steps, t)
    ensures (exists id :: HasNumber(t, id, store, n)) <==> 100001 <= n < NextNumber(t, store)
    ensures forall a, b :: HasNumber(t, a, store, n) && HasNumber(t, b, store, n) ==> a == b
  {
    hide ReachedBy;
    ReachedInv(catalog, steps, t);
    hide StockOk, OrdersOk, TraceOk, SessionsOk, CartsOk;
    forall id | HasNumber(t, id, store, n) ensures (store, n) in t.byNumber && t.byNumber[(store, n)] == id {
      assert OrderIndexed(t, id);
    }
    if (store, n) in t.byNumber { assert HasNumber(t, t.byNumber[(store, n)], store, n); }
  }

  /** Neither evaluation nor finalize ever reports a broken cart. */
  lemma CartInvariantNeverFires(catalog: Catalog, steps: seq<Step>, t: Tables, store: Id, session: Id, now: Time)
    requires ReachedBy(catalog, steps, t)
    ensures LockFault(t, store, session, now) != Some(CheckoutCartInvariant)
  {
    hide ReachedBy;
    ReachedInv(catalog, steps, t);
    CartInvariantHolds(t, store, session, now);
  }

  // ---- Retries.

  lemma FinalizedStays(t: Tables, u: Tables, s: Id)
    requires Later(t, u) && Finalized(t, s)
    ensures Finalized(u, s) && u.sessions[s] == t.sessions[s]
  {
    assert SessionKept(t, u, s);
  }

  /** A session just finalized opens for the same request at any later time. */
  lemma OpensAgain(t: Tables, u: Tables, store: Id, request: FinalizeRequest, fp: Fingerprint, id: Id, o: Order,
      later: Time)
    requires Closes(t, u, request, fp, id, o) && o.store == store && store != NO_ID && request.session != NO_ID
    ensures Opened(u, store, request, later) == Ok(fp)
    ensures Replayed(u, store, request.session, fp) == Ok(o)
  {
  }

  /** What a retry reads never changes again. */
  lemma OpenedStays(t: Tables, u: Tables, store: Id, request: FinalizeRequest, now: Time, later: Time)
    requires Later(t, u) && Finalized(t, request.session) && Opened(t, store, request, now).Ok?
    ensures Opened(u, store, request, later) == Opened(t, store, request, now)
  {
    assert SessionKept(t, u, request.session);
  }

  lemma ReplayStays(t: Tables, u: Tables, store: Id, session: Id, fp: Fingerprint)
    requires Later(t, u) && Finalized(t, session) && Replayed(t, store, session, fp).Ok?
    ensures var r := Replayed(u, store, session, fp);
            r.Ok? && OrderKept(Replayed(t, store, session, fp).value, r.value)
  {
    assert SessionKept(t, u, session);
    assert OrderKept(t.orders[t.bySession[session]], u.orders[t.bySession[session]]);
  }

  /** Idempotency: after a successful finalize and any further run (edits, price and
      stock changes, session expiry, order commands), the same request succeeds again, at
      any time, returns the same order and changes nothing. */
  lemma RetryReturnsTheOrder(
    t: Tables, store: Id, request: FinalizeRequest, now: Time, at: Time, duration: int, f: Fresh, steps: seq<Step>,
    later: Time, at': Time, duration': int, f': Fresh)
    requires Inv(t) && AttemptFresh(t, request, f) && at != 0
    requires FinalizeCheckout(t, store, request, now, at, duration, f).1.Ok?
    requires Possible(FinalizeCheckout(t, store, request, now, at, duration, f).0, steps)
    requires AttemptFresh(Run(FinalizeCheckout(t, store, request, now, at, duration, f).0, steps), request, f')
    ensures var (t1, r) := FinalizeCheckout(t, store, request, now, at, duration, f);
            var u := Run(t1, steps);
            var (u', r') := FinalizeCheckout(u, store, request, later, at', duration', f');
            u' == u && r'.Ok? && OrderKept(r.value, r'.value)
  {
    var (t1, r) := FinalizeCheckout(t, store, request, now, at, duration, f);
    var fp := Opened(t, store, request, now).value;
    SucceededFinalize(t, store, request, now, at, duration, f, fp);
    FinalizeKeepsInv(t, store, request, now, at, duration, f);
    hide Inv, Later, Opened, Replayed, Possible, Run, Closes, AttemptFresh, Place, OrderKept;
    RunKeepsInv(t1, steps);
    var u := Run(t1, steps);
    FinalizedStays(t1, u, request.session);
    OpenedStays(t1, u, store, request, now, later);
    ReplayStays(t1, u, store, request.session, fp);
  }

  lemma SucceededFinalize(t: Tables, store: Id, request: FinalizeRequest, now: Time, at: Time, duration: int,
      f: Fresh, fp: Fingerprint)
    requires Inv(t) && AttemptFresh(t, request, f) && at != 0
    requires FinalizeCheckout(t, store, request, now, at, duration, f).1.Ok? && Opened(t, store, request, now) == Ok(fp)
    ensures var (t1, r) := FinalizeCheckout(t, store, request, now, at, duration, f);
            && Finalized(t1, request.session) && Opened(t1, store, request, now) == Ok(fp)
            && Replayed(t1, store, request.session, fp) == r
  {
    var (t1, r) := FinalizeCheckout(t, store, request, now, at, duration, f);
    FinalizeOutcome(t, store, request, now, at, duration, f);
    OpenedInStore(t, store, request, now);
    hide Inv, AttemptFresh, Opened, Replayed, FinalizeCheckout;
    if !Finalized(t, request.session) {
      OpensAgain(t, t1, store, request, fp, f.order, r.value, now);
    }
  }

  lemma OpenedInStore(t: Tables, store: Id, request: FinalizeRequest, now: Time)
    requires Opened(t, store, request, now).Ok?
    ensures store != NO_ID && request.session != NO_ID && SessionIn(t, store, request.session)
  {
  }

  // ---- UpdateOrderStatus.

  /** The command chosen from a status read before any lock was taken. */
  function Dispatch(peeked: OrderStatus, store: Id, target: OrderStatus, authority: Authority,
      reason: Option<string>, now: Time)
    : (c: Option<OrderCommand>)
    ensures c.Some? ==> !c.value.ExpirePending? && ActorOf(c.value) == authority && c.value.now == now
  {
    match peeked
    case Pending =>
      if target == Confirmed && authority == Seller then Some(Confirm(store, now))
      else if target == Cancelled && (authority == Customer || authority == Seller) then Some(CancelPending(store, authority, reason, now))
      else None
    case Confirmed =>
      if target == Processing && authority == Seller then Some(Advance(store, target, authority, reason, now))
      else if target == Cancelled && authority == Seller then Some(CancelConfirmed(store, authority, reason, now))
      else None
    case Processing =>
      if target == ReadyForShipping && authority == Seller then Some(Advance(store, target, authority, reason, now))
      else if target == Cancelled && authority == Seller then Some(CancelConfirmed(store, authority, reason, now))
      else None
    case _ => None
  }

  ghost function Answer(t: Tables, id: Id, c: OrderCommand): Result<Order>
    requires !c.ExpirePending?
  {
    match c
    case Confirm(store, now) => ConfirmOrder(t, store, id, now).1
    case CancelPending(store, authority, reason, now) => CancelPendingOrder(t, store, id, authority, reason, now).1
    case CancelConfirmed(store, authority, reason, now) => CancelConfirmedOrder(t, store, id, authority, reason, now).1
    case Advance(store, target, authority, reason, now) => AdvanceOrderStatus(t, store, id, target, authority, reason, now).1
  }

  /** UpdateOrderStatus: peeked is the status it read first, t the tables when its command
      runs; anything may have committed in between. */
  ghost function UpdateOrderStatus(
    t: Tables, store: Id, id: Id, peeked: OrderStatus, target: OrderStatus, authority: Authority, reason: Option<string>, now: Time): Outcome
  {
    if store == NO_ID || id == NO_ID then (t, Err(InvalidInput))
    else if authority == Scheduler then (t, Err(InvalidTransition))
    else if peeked == target then (t, if OrderIn(t, store, id) then Ok(t.orders[id]) else Err(NotFound))
    else
      var c := Dispatch(peeked, store, target, authority, reason, now);
      if c.None? then (t, Err(InvalidTransition)) else (OrderStep(t, id, c.value), Answer(t, id, c.value))
  }

  /** A dispatched command reports the target when it succeeds, and
      with a current peek succeeds exactly when the matrix allows the move. */
  ghost predicate AnswersFor(t: Tables, id: Id, c: OrderCommand, peeked: OrderStatus, target: OrderStatus,
      authority: Authority, now: Time)
    requires id in t.orders
  {
    && !c.ExpirePending?
    && var r := Answer(t, id, c);
    && (r.Ok? ==> r.value.status == target)
    && (peeked == t.orders[id].status ==> r.Ok? == Allowed(Some(peeked), authority, target, t.orders[id].deadline, now))
  }

  lemma DispatchAnswers(t: Tables, store: Id, id: Id, peeked: OrderStatus, target: OrderStatus,
      authority: Authority, reason: Option<string>, now: Time, c: OrderCommand)
    requires now != 0 && Named(t, store, id) && peeked != target
    requires Dispatch(peeked, store, target, authority, reason, now) == Some(c)
    requires Inv(t)
    ensures AnswersFor(t, id, c, peeked, target, authority, now)
  {
    hide Inv, ConfirmOrder, CancelPendingOrder, CancelConfirmedOrder, AdvanceOrderStatus, Moved;
    match c {
      case Confirm(_, _) => ConfirmExact(t, store, id, now);
      case CancelPending(_, _, _, _) => CancelPendingExact(t, store, id, authority, reason, now);
      case CancelConfirmed(_, _, _, _) => CancelConfirmedExact(t, store, id, authority, reason, now);
      case Advance(_, _, _, _, _) => AdvanceExact(t, store, id, target, authority, reason, now);
    }
  }

  /** What is not dispatched is not allowed, except to the scheduler. */
  lemma DispatchComplete(peeked: OrderStatus, store: Id, target: OrderStatus, authority: Authority,
      reason: Option<string>, now: Time, deadline: Time)
    requires Dispatch(peeked, store, target, authority, reason, now).None? && authority != Scheduler
    ensures !Allowed(Some(peeked), authority, target, deadline, now)
  {
  }

  /** The contract of UpdateOrderStatus against the transition matrix. */
  ghost predicate FollowsMatrix(t: Tables, id: Id, peeked: OrderStatus, target: OrderStatus, authority: Authority,
      now: Time, out: Outcome)
    requires id in t.orders
  {
    && (out.0 == t || Moved(t, out.0, id, authority, now))
    && (out.1.Ok? && peeked != target ==> out.1.value.status == target)
    && (peeked == t.orders[id].status ==>
          out.1.Ok? ==
          (authority != Scheduler && (peeked == target || Allowed(Some(peeked), authority, target, t.orders[id].deadline, now))))
  }

  /** A stale peek is harmless: whatever was read, the step that commits is a move the
      matrix allows from the status actually stored, and an answer without error after a
      dispatch reports the target. With a current peek the call succeeds exactly when the
      order is at its target or the matrix allows the move. */
  lemma StalePeekIsHarmless(
    t: Tables, store: Id, id: Id, peeked: OrderStatus, target: OrderStatus, authority: Authority, reason: Option<string>, now: Time)
    requires now != 0 && Named(t, store, id)
    requires Inv(t)
    ensures FollowsMatrix(t, id, peeked, target, authority, now,
                          UpdateOrderStatus(t, store, id, peeked, target, authority, reason, now))
    ensures Inv(UpdateOrderStatus(t, store, id, peeked, target, authority, reason, now).0)
  {
    hide Inv, Moved, OrderStep, Answer, Allowed;
    var c := Dispatch(peeked, store, target, authority, reason, now);
    if c.Some? && peeked != target {
      DispatchAnswers(t, store, id, peeked, target, authority, reason, now, c.value);
      OrderStepAllowed(t, id, c.value);
    } else if c.None? && authority != Scheduler {
      DispatchComplete(peeked, store, target, authority, reason, now, t.orders[id].deadline);
    }
  }
}
