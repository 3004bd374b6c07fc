/** Whole runs: any interleaving of committed transactions, with any arguments. */
module Runs {
  import opened Base
  import opened Records
  import opened Orders
  import opened Inventory
  import opened Tables
  import opened Checkout
  import Catalogue
  import opened Finalize
  import opened Ledger
  import opened Histories
  import opened Sessions
  import opened Placement
  import opened Stockroom
  import opened Commands
  import opened Purchases

  datatype OrderCommand =
    | Confirm(store: Id, now: Time)
    | CancelPending(store: Id, authority: Authority, reason: Option<string>, now: Time)
    | CancelConfirmed(store: Id, authority: Authority, reason: Option<string>, now: Time)
    | ExpirePending(now: Time)
    | Advance(store: Id, target: OrderStatus, authority: Authority, reason: Option<string>, now: Time)

  datatype CartCommand =
    | NewCart(store: Id, market: string, customer: Option<Id>)
    | AddItem(store: Id, item: Id, sku: Id, quantity: int)
    | Edit(store: Id, edit: CartEdit)

  datatype StockCommand =
    | NewSnapshot(location: Id, sku: Id, onHand: int)
    | Adjust(delta: int, movementType: string)
    | Reserve(quantity: int, token: Id, reservation: Id, expiresAt: Option<Time>)

  /** One committed or rolled-back transaction; clock readings and drawn identifiers are
      arguments. Rewrite stands for every other writer of catalogue rows. */
  datatype Step =
    | OnOrder(order: Id, orderCommand: OrderCommand)
    | OnCart(cart: Id, cartCommand: CartCommand)
    | OnStock(snapshot: Id, stockCommand: StockCommand)
    | NewSession(session: Id, store: Id, cart: Id, customer: Option<Id>, lifetime: int, now: Time)
    | Finalize(store: Id, request: FinalizeRequest, now: Time, at: Time, duration: int, drawn: Fresh)
    | Rewrite(catalog: Catalog)

  ghost function OrderStep(t: Tables, id: Id, c: OrderCommand): Tables {
    match c
    case Confirm(store, now) => ConfirmOrder(t, store, id, now).0
    case CancelPending(store, authority, reason, now) => CancelPendingOrder(t, store, id, authority, reason, now).0
    case CancelConfirmed(store, authority, reason, now) => CancelConfirmedOrder(t, store, id, authority, reason, now).0
    case ExpirePending(now) => ExpirePendingOrder(t, id, now).0
    case Advance(store, target, authority, reason, now) => AdvanceOrderStatus(t, store, id, target, authority, reason, now).0
  }

  function CartStep(t: Tables, id: Id, c: CartCommand): Tables {
    match c
    case NewCart(store, market, customer) => CreateCart(t, id, store, market, customer).0
    case AddItem(store, item, sku, quantity) => AddCartItem(t, store, id, item, sku, quantity).0
    case Edit(store, edit) => EditCart(t, store, id, edit).0
  }

  function StockStep(t: Tables, id: Id, c: StockCommand): Tables {
    match c
    case NewSnapshot(location, sku, onHand) => CreateInventorySnapshot(t, id, location, sku, onHand).0
    case Adjust(delta, movementType) => AdjustInventory(t, id, delta, movementType).0
    case Reserve(quantity, token, reservation, expiresAt) => ReserveInventory(t, id, quantity, token, reservation, expiresAt).0
  }

  ghost predicate Enabled(t: Tables, step: Step) {
    match step
    case OnOrder(_, c) => c.now != 0
    case OnCart(_, _) => true
    case OnStock(id, c) => c.NewSnapshot? ==> id != NO_ID
    case NewSession(_, _, _, _, _, _) => true
    case Finalize(_, request, _, at, _, f) => at != 0 && AttemptFresh(t, request, f)
    case Rewrite(_) => true
  }

  ghost function Apply(t: Tables, step: Step): Tables
    requires Enabled(t, step)
  {
    match step
    case OnOrder(id, c) => OrderStep(t, id, c)
    case OnCart(id, c) => CartStep(t, id, c)
    case OnStock(id, c) => StockStep(t, id, c)
    case NewSession(id, store, cart, customer, lifetime, now) => CreateCheckoutSession(t, id, store, cart, customer, lifetime, now).0
    case Finalize(store, request, now, at, duration, f) => FinalizeCheckout(t, store, request, now, at, duration, f).0
    case Rewrite(catalog) => t.(catalog := catalog)
  }

  // ---- What later states keep of earlier ones.

  /** Only status, reason, version and update time of an order ever change, and its
      status only moves up. */
  ghost predicate OrderKept(o: Order, o': Order) {
    && o' == MovedOrder(o, o'.status, o'.reason, o'.updatedAt).(version := o'.version)
    && (o' == o || Rank(Some(o.status)) < Rank(Some(o'.status)))
  }

  ghost predicate SessionKept(t: Tables, u: Tables, s: Id)
    requires s in t.sessions
  {
    && s in u.sessions && u.sessions[s] == t.sessions[s]
    && (t.sessions[s].cart in t.carts ==> t.sessions[s].cart in u.carts && u.carts[t.sessions[s].cart] == t.carts[t.sessions[s].cart])
    && (s in t.bySession ==> s in u.bySession && u.bySession[s] == t.bySession[s])
  }

  ghost predicate OrdersLater(t: Tables, u: Tables) {
    forall id :: id in t.orders ==> id in u.orders && OrderKept(t.orders[id], u.orders[id])
  }

  ghost predicate SessionsLater(t: Tables, u: Tables) {
    forall s :: Finalized(t, s) ==> SessionKept(t, u, s)
  }

  ghost predicate Later(t: Tables, u: Tables) {
    OrdersLater(t, u) && SessionsLater(t, u)
  }

  lemma LaterSelf(t: Tables)
    ensures Later(t, t)
  {
  }

  lemma LaterTwice(t: Tables, u: Tables, v: Tables)
    requires Later(t, u) && Later(u, v)
    ensures Later(t, v)
  {
    forall id | id in t.orders ensures id in v.orders && OrderKept(t.orders[id], v.orders[id]) {
      assert OrderKept(t.orders[id], u.orders[id]) && OrderKept(u.orders[id], v.orders[id]);
    }
    forall s | Finalized(t, s) ensures SessionKept(t, v, s) {
      assert SessionKept(t, u, s);
      assert Finalized(u, s);
      assert SessionKept(u, v, s);
    }
  }

  // ---- Each kind of step.

  lemma MovedLater(t: Tables, t': Tables, id: Id, actor: Authority, now: Time)
    requires Moved(t, t', id, actor, now)
    ensures Later(t, t')
  {
    AllowedProgresses(Some(t.orders[id].status), actor, t'.orders[id].status, t.orders[id].deadline, now);
  }

  lemma GrownLater(t: Tables, t': Tables)
    requires SessionsOk(t) && Grows(t, t') && t'.orders == t.orders
    ensures Later(t, t')
  {
    forall s | Finalized(t, s) ensures SessionKept(t, t', s) {
      assert FinalizedOk(t, s);
      assert CartKept(t, t', t.sessions[s].cart);
    }
  }

  lemma ClosedLater(t: Tables, t': Tables, request: FinalizeRequest, fp: Fingerprint, id: Id, o: Order)
    requires SessionsOk(t) && Closes(t, t', request, fp, id, o)
    ensures Later(t, t')
  {
    forall s | Finalized(t, s) ensures SessionKept(t, t', s) {
      ClosedCartUnused(t, request, fp, s);
    }
  }

  function ActorOf(c: OrderCommand): Authority {
    match c
    case Confirm(_, _) => Seller
    case CancelPending(_, authority, _, _) => authority
    case CancelConfirmed(_, authority, _, _) => authority
    case ExpirePending(_) => Scheduler
    case Advance(_, _, authority, _, _) => authority
  }

  /** Every committed order command is a move that ValidateOrderTransition allows for its
      authority at its decision time; any other command changes nothing at all. */
  lemma OrderStepAllowed(t: Tables, id: Id, c: OrderCommand)
    requires Inv(t) && c.now != 0
    ensures Inv(OrderStep(t, id, c))
    ensures OrderStep(t, id, c) == t || Moved(t, OrderStep(t, id, c), id, ActorOf(c), c.now)
  {
    hide Inv, Moved;
    match c {
      case Confirm(store, now) =>
        if Named(t, store, id) { hide ConfirmOrder; ConfirmExact(t, store, id, now); }
      case CancelPending(store, authority, reason, now) =>
        if Named(t, store, id) { hide CancelPendingOrder; CancelPendingExact(t, store, id, authority, reason, now); }
      case CancelConfirmed(store, authority, reason, now) =>
        if Named(t, store, id) { hide CancelConfirmedOrder; CancelConfirmedExact(t, store, id, authority, reason, now); }
      case ExpirePending(now) =>
        if id != NO_ID { hide ExpirePendingOrder; ExpireExact(t, id, now); }
      case Advance(store, target, authority, reason, now) =>
        if Named(t, store, id) { hide AdvanceOrderStatus; AdvanceExact(t, store, id, target, authority, reason, now); }
    }
  }

  /** Everything but catalogue, carts and sessions stands still. */
  ghost predicate OnlyCheckoutRows(t: Tables, t': Tables) {
    t' == t.(catalog := t'.catalog, carts := t'.carts, sessions := t'.sessions)
  }

  lemma SameTrace(t: Tables, t': Tables)
    requires TraceOk(t) && t'.orders == t.orders && t'.timeline == t.timeline && t'.events == t.events
    ensures TraceOk(t')
  {
    hide HistoryFor;
    forall k | k in t'.orders ensures HistoryFor(t'.timeline, t'.events, k, t'.orders[k]) {
      assert HistoryFor(t.timeline, t.events, k, t.orders[k]);
    }
  }

  lemma CheckoutRowsKeepInv(t: Tables, t': Tables)
    requires Inv(t) && OnlyCheckoutRows(t, t') && CartsGrow(t, t') && SessionsGrow(t, t')
    ensures Inv(t') && Later(t, t')
  {
    hide BooksOk, OrdersOk, TraceOk, Later, CartsGrow, SessionsGrow, IndexesOk, CartsOk, NumbersOk;
    SameTrace(t, t');
    GrowKeepsCheckout(t, t');
    GrownLater(t, t');
  }

  ghost predicate RowsGrow(t: Tables, t': Tables) {
    OnlyCheckoutRows(t, t') && CartsGrow(t, t') && SessionsGrow(t, t')
  }

  lemma SameRowsGrow(t: Tables)
    ensures RowsGrow(t, t)
  {
  }

  lemma WithItemsGrows(t: Tables, t': Tables, cart: Id, items: seq<CartItem>)
    requires cart in t.carts && t.carts[cart].status == CartActive && t' == WithItems(t, cart, items)
    ensures RowsGrow(t, t')
  {
  }

  lemma NewCartGrows(t: Tables, t': Tables, id: Id, cart: Cart)
    requires id !in t.carts && cart.status == CartActive && t' == t.(carts := t.carts[id := cart])
    ensures RowsGrow(t, t')
  {
  }

  lemma CartStepGrows(t: Tables, id: Id, c: CartCommand)
    ensures RowsGrow(t, CartStep(t, id, c))
  {
    var t' := CartStep(t, id, c);
    hide RowsGrow;
    SameRowsGrow(t);
    match c {
      case NewCart(store, market, customer) =>
        if CreateCart(t, id, store, market, customer).1.Ok? {
          NewCartGrows(t, t', id, Cart(store, market, customer, CartActive, []));
        }
      case AddItem(store, item, sku, quantity) =>
        AddGrows(t, id, store, item, sku, quantity);
      case Edit(store, edit) =>
        if EditCart(t, store, id, edit).1.Ok? {
          WithItemsGrows(t, t', id, EditedItems(t.carts[id].items, edit));
        }
    }
  }

  lemma AddGrows(t: Tables, cart: Id, store: Id, item: Id, sku: Id, quantity: int)
    ensures RowsGrow(t, AddCartItem(t, store, cart, item, sku, quantity).0)
  {
    hide RowsGrow, FindItem, InsertItem, ResolveListing;
    SameRowsGrow(t);
    var t' := AddCartItem(t, store, cart, item, sku, quantity).0;
    if AddCartItem(t, store, cart, item, sku, quantity).1.Ok? {
      WithItemsGrows(t, t', cart, t'.carts[cart].items);
    }
  }

  lemma NewSessionGrows(t: Tables, id: Id, store: Id, cart: Id, customer: Option<Id>, lifetime: int, now: Time)
    ensures RowsGrow(t, CreateCheckoutSession(t, id, store, cart, customer, lifetime, now).0)
  {
    var (t', r) := CreateCheckoutSession(t, id, store, cart, customer, lifetime, now);
    hide RowsGrow;
    SameRowsGrow(t);
    if r.Ok? { SessionAdded(t, t', id, r.value); }
  }

  lemma SessionAdded(t: Tables, t': Tables, id: Id, s: Session)
    requires id !in t.sessions && s.status == SessionOpen && CartIn(t, s.store, s.cart)
    requires t' == t.(sessions := t.sessions[id := s])
    ensures RowsGrow(t, t')
  {
  }

  ghost predicate OnlyStockRows(t: Tables, t': Tables) {
    t' == t.(snapshots := t'.snapshots, reservations := t'.reservations, movements := t'.movements, revisions := t'.revisions)
  }

  /** What a stock writer may leave behind. */
  ghost predicate StockKept(t: Tables, t': Tables) {
    && OnlyStockRows(t, t') && NO_ID !in t'.snapshots && SameRows(t.reservations, t'.reservations)
    && BooksOk(t'.snapshots, t'.reservations, t'.movements, t.orders)
  }

  lemma CreateKeepsStock(t: Tables, id: Id, location: Id, sku: Id, onHand: int)
    requires StockOk(t) && NO_ID !in t.snapshots && id != NO_ID
    ensures StockKept(t, CreateInventorySnapshot(t, id, location, sku, onHand).0)
  {
    hide BooksOk;
    if CreateInventorySnapshot(t, id, location, sku, onHand).1.Ok? {
      CreateKeepsBooks(t.snapshots, t.reservations, t.movements, t.orders, id, Snapshot(location, sku, onHand, onHand, 0, 0));
    }
  }

  lemma AdjustKeepsStock(t: Tables, id: Id, delta: int, movementType: string)
    requires StockOk(t) && NO_ID !in t.snapshots
    ensures StockKept(t, AdjustInventory(t, id, delta, movementType).0)
  {
    hide BooksOk, Catalogue.StoresByInventorySnapshot;
    if AdjustInventory(t, id, delta, movementType).1.Ok? {
      ReservedFits(t, id);
      var s := AdjustedRow(t.snapshots[id], delta);
      AdjustKeepsBooks(t.snapshots, t.reservations, t.movements, t.orders, id, delta, Movement(Adjusted(movementType), delta, s.onHand, s.reserved));
    }
  }

  lemma ReserveKeepsStock(t: Tables, id: Id, quantity: int, token: Id, reservation: Id, expiresAt: Option<Time>)
    requires StockOk(t) && NO_ID !in t.snapshots
    ensures StockKept(t, ReserveInventory(t, id, quantity, token, reservation, expiresAt).0)
  {
    hide BooksOk;
    if ReserveInventory(t, id, quantity, token, reservation, expiresAt).1.Ok? {
      HoldKeepsBooks(t.snapshots, t.reservations, t.movements, t.orders, id, reservation,
                     Reservation(id, quantity, Held, expiresAt), t.movements, Movement(ReservationHeld, 0, 0, 0));
    }
  }

  lemma ReservedFits(t: Tables, id: Id)
    requires StockOk(t) && id in t.snapshots
    ensures t.snapshots[id].reserved <= t.snapshots[id].onHand
  {
    assert CountersAt(t.snapshots, t.reservations, id);
  }

  lemma StockKeptKeepsInv(t: Tables, t': Tables)
    requires Inv(t) && StockKept(t, t')
    ensures Inv(t') && Later(t, t')
  {
    hide BooksOk, OrdersOk, TraceOk, Later, IndexesOk, CartsOk, NumbersOk, SameRows;
    MoreRowsKeepOrders(t.reservations, t'.reservations, t.orders);
    SameTrace(t, t');
    StockRowsGrow(t, t');
    GrowKeepsCheckout(t, t');
    GrownLater(t, t');
  }

  lemma StockRowsGrow(t: Tables, t': Tables)
    requires OnlyStockRows(t, t')
    ensures Grows(t, t')
  {
  }

  lemma StockStepKeepsInv(t: Tables, id: Id, c: StockCommand)
    requires Inv(t) && (c.NewSnapshot? ==> id != NO_ID)
    ensures Inv(StockStep(t, id, c)) && Later(t, StockStep(t, id, c))
  {
    assert StockOk(t) && NO_ID !in t.snapshots;
    hide Inv, StockOk, StockKept, Later, CreateInventorySnapshot, AdjustInventory, ReserveInventory;
    match c {
      case NewSnapshot(location, sku, onHand) => CreateKeepsStock(t, id, location, sku, onHand);
      case Adjust(delta, movementType) => AdjustKeepsStock(t, id, delta, movementType);
      case Reserve(quantity, token, reservation, expiresAt) => ReserveKeepsStock(t, id, quantity, token, reservation, expiresAt);
    }
    StockKeptKeepsInv(t, StockStep(t, id, c));
  }

  lemma FinalizeKeepsInv(t: Tables, store: Id, request: FinalizeRequest, now: Time, at: Time, duration: int, f: Fresh)
    requires Inv(t) && AttemptFresh(t, request, f) && at != 0
    ensures var t' := FinalizeCheckout(t, store, request, now, at, duration, f).0;
            Inv(t') && Later(t, t')
  {
    var (t', r) := FinalizeCheckout(t, store, request, now, at, duration, f);
    assert SessionsOk(t);
    hide Inv, SessionsOk, Opened, Later, Closes, FreshFor;
    FinalizeOutcome(t, store, request, now, at, duration, f);
    LaterSelf(t);
    if r.Ok? && !Finalized(t, request.session) {
      ClosedLater(t, t', request, Opened(t, store, request, now).value, f.order, r.value);
    }
  }

  // ---- Every step and every run.

  /** The global invariant survives every transaction, whatever its arguments. */
  lemma StepKeepsInv(t: Tables, step: Step)
    requires Inv(t) && Enabled(t, step)
    ensures Inv(Apply(t, step)) && Later(t, Apply(t, step))
  {
    hide Inv, Later, OnlyCheckoutRows, CartsGrow, SessionsGrow, OrderStep, CartStep, StockStep, FinalizeCheckout, CreateCheckoutSession, AttemptFresh;
    LaterSelf(t);
    match step {
      case OnOrder(id, c) =>
        OrderStepAllowed(t, id, c);
        if OrderStep(t, id, c) != t { MovedLater(t, OrderStep(t, id, c), id, ActorOf(c), c.now); }
      case OnCart(id, c) =>
        CartStepGrows(t, id, c);
        CheckoutRowsKeepInv(t, CartStep(t, id, c));
      case OnStock(id, c) =>
        StockStepKeepsInv(t, id, c);
      case NewSession(id, store, cart, customer, lifetime, now) =>
        NewSessionGrows(t, id, store, cart, customer, lifetime, now);
        CheckoutRowsKeepInv(t, CreateCheckoutSession(t, id, store, cart, customer, lifetime, now).0);
      case Finalize(store, request, now, at, duration, f) =>
        FinalizeKeepsInv(t, store, request, now, at, duration, f);
      case Rewrite(catalog) =>
        RewriteGrows(t, catalog);
        CheckoutRowsKeepInv(t, t.(catalog := catalog));
    }
  }

  lemma RewriteGrows(t: Tables, catalog: Catalog)
    ensures RowsGrow(t, t.(catalog := catalog))
  {
  }

  ghost predicate Possible(t: Tables, steps: seq<Step>)
    decreases |steps|
  {
    steps == [] || (Enabled(t, steps[0]) && Possible(Apply(t, steps[0]), steps[1..]))
  }

  ghost function Run(t: Tables, steps: seq<Step>): Tables
    requires Possible(t, steps)
    decreases |steps|
  {
    if steps == [] then t else Run(Apply(t, steps[0]), steps[1..])
  }

  lemma {:induction false} RunAppends(t: Tables, steps: seq<Step>, s: Step)
    requires Possible(t, steps) && Enabled(Run(t, steps), s)
    ensures Possible(t, steps + [s]) && Run(t, steps + [s]) == Apply(Run(t, steps), s)
    decreases |steps|
  {
    hide Apply, Enabled;
    if steps == [] {
      assert ([] + [s])[1..] == [];
    } else {
      RunAppends(Apply(t, steps[0]), steps[1..], s);
      assert (steps + [s])[1..] == steps[1..] + [s];
    }
  }

  /** The database right after the migrations, with any catalogue. */
  function Empty(catalog: Catalog): Tables {
    Tables(catalog, map[], map[], map[], map[], map[], map[], map[], map[], map[], map[], map[], map[])
  }

  lemma EmptyInv(catalog: Catalog)
    ensures Inv(Empty(catalog))
  {
  }

  lemma {:induction false} RunKeepsInv(t: Tables, steps: seq<Step>)
    requires Inv(t) && Possible(t, steps)
    ensures Inv(Run(t, steps)) && Later(t, Run(t, steps))
    decreases |steps|
  {
    hide Inv, Later, Apply, Enabled;
    LaterSelf(t);
    if steps != [] {
      StepKeepsInv(t, steps[0]);
      RunKeepsInv(Apply(t, steps[0]), steps[1..]);
      LaterTwice(t, Apply(t, steps[0]), Run(t, steps));
    }
  }
}
