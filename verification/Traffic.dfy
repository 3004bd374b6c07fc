/** Checkout and order traffic changes stock without bumping generations; readers of the
    category tree do not notice. */
module Traffic {
  import opened Base
  import opened Records
  import opened Inventory
  import opened Tables
  import opened Checkout
  import opened Finalize
  import opened Sessions
  import opened Runs
  import opened Cache
  import Catalogue
  import opened Categories

  ghost predicate Calm(t: Tables, t': Tables) {
    t'.catalog == t.catalog && t'.revisions == t.revisions
  }

  lemma CalmTwice(t: Tables, u: Tables, v: Tables)
    requires Calm(t, u) && Calm(u, v)
    ensures Calm(t, v)
  {
  }

  lemma SettledCalm(t: Tables, d: Disposition, ids: set<Id>)
    ensures Calm(t, Settled(t, d, ids)) && Settled(t, d, ids).orders == t.orders
  {
    hide SettledSnapshots, SettledMovements, Marked, Touched;
  }

  lemma TransitionedCalm(t: Tables, id: Id, to: OrderStatus, actor: Authority, reason: Option<string>, now: Time)
    requires id in t.orders
    ensures Calm(t, Transitioned(t, id, to, actor, reason, now))
  {
    hide MovedOrder, Append;
  }

  lemma SettleCalm(t: Tables, id: Id, d: Disposition, to: OrderStatus, actor: Authority, reason: Option<string>,
      now: Time)
    requires id in t.orders
    ensures Calm(t, Settle(t, id, d, to, actor, reason, now).0)
  {
    hide SettleFault, Settled, Transitioned, MovedOrder, Calm;
    Still(t);
    var ids := ItemReservations(t.orders[id].items);
    SettledCalm(t, d, ids);
    TransitionedCalm(Settled(t, d, ids), id, to, actor, reason, now);
    CalmTwice(t, Settled(t, d, ids), Transitioned(Settled(t, d, ids), id, to, actor, reason, now));
  }

  lemma Still(t: Tables)
    ensures Calm(t, t)
  {
  }

  lemma OrderStepCalm(t: Tables, id: Id, c: OrderCommand)
    ensures Calm(t, OrderStep(t, id, c))
  {
    hide Settle;
    if id in t.orders {
      forall d: Disposition, to: OrderStatus, actor: Authority, reason: Option<string>, now: Time { SettleCalm(t, id, d, to, actor, reason, now); }
    }
  }

  lemma PlacedCalm(t: Tables, request: FinalizeRequest, fp: Fingerprint, st: Stock, id: Id, o: Order)
    requires request.session in t.sessions && t.sessions[request.session].cart in t.carts
    ensures Calm(t, Placed(t, request, fp, st, id, o))
  {
    hide ClosedSession, Append;
  }

  lemma PlaceCalm(t: Tables, store: Id, request: FinalizeRequest, fp: Fingerprint, at: Time, duration: int, f: Fresh)
    requires SessionIn(t, store, request.session) && CartIn(t, store, t.sessions[request.session].cart)
    requires |f.reservations| == |t.carts[t.sessions[request.session].cart].items|
    ensures Calm(t, Place(t, store, request, fp, at, duration, f).0)
  {
    hide Accept, CreateFault, NewOrder, HoldAll, Placed, Calm;
    Still(t);
    forall st: Stock, id: Id, o: Order { PlacedCalm(t, request, fp, st, id, o); }
  }

  lemma FinalizeCalm(t: Tables, store: Id, request: FinalizeRequest, now: Time, at: Time, duration: int, f: Fresh)
    requires SessionIn(t, store, request.session) && t.sessions[request.session].cart in t.carts ==>
      |f.reservations| == |t.carts[t.sessions[request.session].cart].items|
    ensures Calm(t, FinalizeCheckout(t, store, request, now, at, duration, f).0)
  {
    var fp := Opened(t, store, request, now);
    hide Calm, Place, Replayed;
    Still(t);
    if fp.Ok? && t.sessions[request.session].status != SessionFinalized {
      PlaceCalm(t, store, request, fp.value, at, duration, f);
    }
  }

  lemma CalmIsHonest(t: Tables, t': Tables, store: Id, scope: Scope)
    requires Calm(t, t')
    ensures Honest(t, t', store, TreeOf(scope))
  {
    hide PublicTree;
  }

  lemma EditCalm(t: Tables, t': Tables, cart: Id, items: seq<CartItem>)
    requires cart in t.carts && t' == WithItems(t, cart, items)
    ensures Calm(t, t')
  {
  }

  lemma NewCartCalm(t: Tables, id: Id, store: Id, market: string, customer: Option<Id>)
    ensures Calm(t, CreateCart(t, id, store, market, customer).0)
  {
    hide Calm, CustomerHasActiveCart;
    Still(t);
    var t' := CreateCart(t, id, store, market, customer).0;
    CartsCalm(t, t');
  }

  lemma CartsCalm(t: Tables, t': Tables)
    requires t' == t.(carts := t'.carts)
    ensures Calm(t, t')
  {
  }

  lemma AddCalm(t: Tables, cart: Id, store: Id, item: Id, sku: Id, quantity: int)
    ensures Calm(t, AddCartItem(t, store, cart, item, sku, quantity).0)
  {
    hide Calm, FindItem, InsertItem, ResolveListing;
    Still(t);
    var t' := AddCartItem(t, store, cart, item, sku, quantity).0;
    if AddCartItem(t, store, cart, item, sku, quantity).1.Ok? { EditCalm(t, t', cart, t'.carts[cart].items); }
  }

  lemma CartStepCalm(t: Tables, id: Id, c: CartCommand)
    ensures Calm(t, CartStep(t, id, c))
  {
    hide CreateCart, AddCartItem, EditedItems, Calm;
    Still(t);
    match c {
      case NewCart(store, market, customer) => NewCartCalm(t, id, store, market, customer);
      case AddItem(store, item, sku, quantity) => AddCalm(t, id, store, item, sku, quantity);
      case Edit(store, edit) =>
        if EditCart(t, store, id, edit).1.Ok? { EditCalm(t, CartStep(t, id, c), id, EditedItems(t.carts[id].items, edit)); }
    }
  }

  /** Every step of a run but a rewrite of the catalogue is honest to tree readers, bumping
      or not. */
  lemma TreesIgnoreTraffic(t: Tables, step: Step, store: Id, scope: Scope)
    requires Enabled(t, step) && !step.Rewrite?
    ensures Honest(t, Apply(t, step), store, TreeOf(scope))
  {
    hide Honest, Calm, OrderStep, CartStep, StockStep, FinalizeCheckout, CreateCheckoutSession;
    match step {
      case OnOrder(id, c) => OrderStepCalm(t, id, c);
      case OnCart(id, c) => CartStepCalm(t, id, c);
      case OnStock(id, c) => StockWritersAreHonest(t, id, c, store, TreeOf(scope));
      case NewSession(id, shop, cart, customer, lifetime, now) => NewSessionCalm(t, id, shop, cart, customer, lifetime, now);
      case Finalize(shop, request, now, at, duration, f) => FinalizeCalm(t, shop, request, now, at, duration, f);
    }
    if !step.OnStock? { CalmIsHonest(t, Apply(t, step), store, scope); }
  }

  lemma NewSessionCalm(t: Tables, id: Id, store: Id, cart: Id, customer: Option<Id>, lifetime: int, now: Time)
    ensures Calm(t, CreateCheckoutSession(t, id, store, cart, customer, lifetime, now).0)
  {
  }

  // ---- Traffic and writers together.

  /** A transaction of checkout, cart, order or stock traffic. */
  ghost predicate IsTraffic(t: Tables, t': Tables) {
    exists step: Step :: Enabled(t, step) && !step.Rewrite? && t' == Apply(t, step)
  }

  /** Every commit is traffic or one of the writers that bump. */
  ghost predicate MixedHistory(states: seq<Tables>) {
    forall i :: 0 <= i < |states| - 1 ==> IsTraffic(states[i], states[i + 1]) || IsWritten(states[i], states[i + 1])
  }

  ghost predicate TreesOnly(asked: iset<Query>) {
    forall q :: q in asked ==> q.TreeOf?
  }

  /** Any such history meets the hypothesis of the cache theorems for tree readers. */
  lemma MixedIsHonest(states: seq<Tables>, store: Id, asked: iset<Query>)
    requires MixedHistory(states) && TreesOnly(asked)
    ensures HonestHistory(states, store, asked)
  {
    hide Honest, Apply, Written, Enabled;
    forall i, q | 0 <= i < |states| - 1 && q in asked ensures Honest(states[i], states[i + 1], store, q) {
      assert q.TreeOf?;
      if IsTraffic(states[i], states[i + 1]) {
        var step: Step :| Enabled(states[i], step) && !step.Rewrite? && states[i + 1] == Apply(states[i], step);
        TreesIgnoreTraffic(states[i], step, store, q.scope);
      } else {
        var w :| states[i + 1] == Written(states[i], w);
        WriterIsHonest(states[i], w, store, q);
      }
    }
  }

  /** So under real traffic a cached payload of category trees whose label the probe
      confirms is what the store shows at the probe. */
  lemma CachedTreesAreCurrent(
    states: seq<Tables>, store: Id, asked: iset<Query>, reader: Reader, stamp: nat, times: seq<nat>, payload: seq<Answer>, probe: nat)
    requires MixedHistory(states) && TreesOnly(asked) && stamp <= probe < |states|
    requires Fills(states, store, asked, reader, stamp, times, payload)
    requires forall j :: 0 <= j < |times| ==> times[j] <= probe
    requires StorefrontRevision(states[stamp], store) == StorefrontRevision(states[probe], store)
    ensures IsOutput(states[probe], store, reader, payload)
  {
    hide MixedHistory, HonestHistory, Fills, IsOutput, StorefrontRevision;
    MixedIsHonest(states, store, asked);
    CachedPayloadIsCurrent(states, store, asked, reader, stamp, times, payload, probe);
  }
}
