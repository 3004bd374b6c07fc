/** Exactly when a finalize places an order
    (modules/commerce/checkout_session.go:262-776). */
module Acceptance {
  import opened Base
  import opened Money
  import opened Records
  import opened Inventory
  import opened Fingerprints
  import opened Tables
  import opened Checkout
  import opened Finalize
  import opened Sessions
  import opened Placement
  import opened Commands
  import opened Purchases
  import opened Receipts
  import Amounts
  import Catalogue

  // ---- One line.

  /** The listing still sells the line's SKU in this store and market at the line's price,
      and the offer behind it, if any, is still good in the same currency. */
  ghost predicate Current(c: Catalog, store: Id, market: string, currency: string, line: CartItem) {
    && line.listing in c.listings
    && var l := c.listings[line.listing];
    && l.store == store && l.active && l.market == market
    && l.price == Some(Price(line.price, line.currency)) && line.currency == currency
    && l.product in c.products && c.products[l.product].active
    && line.sku in c.skus && c.skus[line.sku].active && c.skus[line.sku].variant in c.variants
    && c.variants[c.skus[line.sku].variant].active && c.variants[c.skus[line.sku].variant].product == l.product
    && (l.offer.Some? ==>
          && l.offer.value in c.offers
          && var o := c.offers[l.offer.value];
          && o.active && o.market == market && o.available != Some(false)
          && o.price.Some? && o.price.value.currency == currency
          && o.supplierProduct in c.supplierProducts && c.supplierProducts[o.supplierProduct] == SupplierProduct(o.supplier, l.product))
  }

  /** Revalidation refuses a line exactly when it is not current; in particular when its
      price has moved. */
  lemma RevalidateExact(c: Catalog, store: Id, market: string, currency: string, line: CartItem)
    ensures Revalidate(c, store, market, currency, line).Ok? <==> Current(c, store, market, currency, line)
  {
  }

  /** Checkout accepts what the storefront lists: in an active store's market a line is
      current exactly when its listing is eligible there and the line agrees with it. */
  lemma CurrentIsEligible(c: Catalog, store: Id, market: string, line: CartItem)
    requires store in c.stores && c.stores[store].market == market && market in c.markets
    ensures Current(c, store, market, c.markets[market], line) <==>
      && line.listing in c.listings
      && var l := c.listings[line.listing];
      && Catalogue.Eligible(c, store, market, l.product, line.listing) && Catalogue.SupplierAvailable(c, l)
      && l.price == Some(Price(line.price, line.currency)) && line.currency == c.markets[market]
      && Catalogue.SkuOf(c, l.product, line.sku) && c.skus[line.sku].active && c.variants[c.skus[line.sku].variant].active
      && (l.offer.Some? ==> c.offers[l.offer.value].price.Some? && c.offers[l.offer.value].price.value.currency == c.markets[market])
  {
  }

  /** Snapshots that may serve the line: the SKU at an active location of the market that
      belongs to the store itself, or to the supplier of the listing's offer. */
  ghost function Serving(c: Catalog, snaps: map<Id, Snapshot>, store: Id, market: string, line: CartItem): set<Id>
    requires line.listing in c.listings && (c.listings[line.listing].offer.Some? ==> c.listings[line.listing].offer.value in c.offers)
  {
    var l := c.listings[line.listing];
    set id | id in snaps && snaps[id].sku == line.sku && snaps[id].location in c.locations
      && c.locations[snaps[id].location].active && c.locations[snaps[id].location].market == market
      && c.locations[snaps[id].location].store == (if l.offer.None? then Some(store) else None)
      && c.locations[snaps[id].location].supplier == (if l.offer.None? then None else Some(c.offers[l.offer.value].supplier))
  }

  lemma CandidatesServe(c: Catalog, snaps: map<Id, Snapshot>, store: Id, market: string, currency: string, line: CartItem)
    requires Current(c, store, market, currency, line)
    ensures Revalidate(c, store, market, currency, line).Ok?
    ensures Candidates(c, snaps, store, market, line.sku, Revalidate(c, store, market, currency, line).value.supplier) ==
            Serving(c, snaps, store, market, line)
  {
    RevalidateExact(c, store, market, currency, line);
    FactsOf(c, store, market, currency, line);
    hide Revalidate;
  }

  // ---- All lines.

  ghost predicate AllCurrent(c: Catalog, store: Id, market: string, currency: string, items: seq<CartItem>) {
    forall i :: 0 <= i < |items| ==> Current(c, store, market, currency, items[i])
  }

  /** What the lines ask for. */
  ghost function Asked(c: Catalog, snaps: map<Id, Snapshot>, store: Id, market: string, currency: string, items: seq<CartItem>): seq<Demand>
    requires AllCurrent(c, store, market, currency, items)
  {
    seq(|items|, i requires 0 <= i < |items| => Demand(Serving(c, snaps, store, market, items[i]), items[i].quantity))
  }

  /** There is stock for all lines together, each line from one snapshot. */
  ghost predicate Plannable(lines: seq<Demand>, rows: map<Id, Snapshot>) {
    exists choices :: |choices| == |lines| && IsPlan(lines, rows, choices)
  }

  lemma {:induction false} PlanComplete(lines: seq<Demand>, rows: map<Id, Snapshot>, choices: seq<Id>)
    requires |choices| == |lines| && IsPlan(lines, rows, choices)
    ensures Plan(lines, rows) == Ok(choices)
  {
    if lines != [] {
      var n := |lines| - 1;
      var init, c := lines[..n], choices[..n];
      forall i | 0 <= i < n ensures PlannedAt(init, rows, c, i) {
        assert PlannedAt(lines, rows, choices, i);
        assert c[..i] == choices[..i];
        LeftPrefix(init, lines, rows, c[..i]);
      }
      PlanComplete(init, rows, c);
      assert PlannedAt(lines, rows, choices, n);
      forall id: Id ensures TakenFrom(TakenMap(init, c), id) == Taken(lines, c, id) {
        TakenMapExact(init, c, id);
        TakenPrefix(init, lines, c, id);
      }
      assert LeftFitting(lines, rows, c) == Fitting(lines[n].candidates, rows, lines[n].quantity, TakenMap(init, c));
      assert choices == c + [choices[n]];
    }
  }

  /** The loop succeeds exactly when there is a plan. */
  lemma PlanExact(lines: seq<Demand>, rows: map<Id, Snapshot>)
    ensures Plan(lines, rows).Ok? <==> Plannable(lines, rows)
  {
    if Plan(lines, rows).Ok? {
      PlanIsPlan(lines, rows);
      assert |Plan(lines, rows).value| == |lines|;
    }
    if Plannable(lines, rows) {
      var choices :| |choices| == |lines| && IsPlan(lines, rows, choices);
      PlanComplete(lines, rows, choices);
    }
  }

  lemma {:induction false} PlannedHasChoices(lines: seq<Demand>, rows: map<Id, Snapshot>, i: nat)
    requires Plannable(lines, rows) && i < |lines|
    ensures lines[i].candidates != {}
  {
    var choices :| |choices| == |lines| && IsPlan(lines, rows, choices);
    assert PlannedAt(lines, rows, choices, i);
  }

  /** A cart is accepted exactly when every line is current, the true total fits in 64
      bits and there is stock for all lines together. */
  lemma CartAccepted(c: Catalog, snaps: map<Id, Snapshot>, store: Id, market: string, currency: string, items: seq<CartItem>)
    requires Amounts.AllFit(items)
    ensures AcceptedCart(c, snaps, store, market, currency, items).Ok? <==>
      AllCurrent(c, store, market, currency, items) && Amounts.Total(items) <= MAX_INT64 && Plannable(Asked(c, snaps, store, market, currency, items), snaps)
  {
    hide Revalidate, Current, Plan, Plannable, IsPlan, Candidates, Serving, CheckLines;
    Amounts.SubtotalExact(c, snaps, store, market, currency, items);
    forall i | 0 <= i < |items| { RevalidateExact(c, store, market, currency, items[i]); }
    if AllCurrent(c, store, market, currency, items) {
      var asked := Asked(c, snaps, store, market, currency, items);
      forall i | 0 <= i < |items| { CandidatesServe(c, snaps, store, market, currency, items[i]); }
      if Plannable(asked, snaps) {
        forall i | 0 <= i < |items| ensures Amounts.Stocked(c, snaps, store, market, currency, items[i]) {
          PlannedHasChoices(asked, snaps, i);
          AskedIsStocked(c, snaps, store, market, currency, items, i);
        }
      }
      var checked := CheckLines(c, snaps, store, market, currency, items);
      if checked.Ok? {
        DemandsAreAsked(c, snaps, store, market, currency, items, checked.value.lines);
        PlanExact(asked, snaps);
      }
    }
  }

  lemma AskedIsStocked(c: Catalog, snaps: map<Id, Snapshot>, store: Id, market: string, currency: string, items: seq<CartItem>, i: nat)
    requires AllCurrent(c, store, market, currency, items) && i < |items|
    requires Asked(c, snaps, store, market, currency, items)[i].candidates != {}
    ensures Amounts.Stocked(c, snaps, store, market, currency, items[i])
  {
    CandidatesServe(c, snaps, store, market, currency, items[i]);
    hide Revalidate, Candidates, Serving;
  }

  lemma DemandsAreAsked(c: Catalog, snaps: map<Id, Snapshot>, store: Id, market: string, currency: string, items: seq<CartItem>,
      lines: seq<CheckedLine>)
    requires AllCurrent(c, store, market, currency, items) && CheckLines(c, snaps, store, market, currency, items).Ok?
    requires lines == CheckLines(c, snaps, store, market, currency, items).value.lines
    ensures DemandsOf(items, lines) == Asked(c, snaps, store, market, currency, items)
  {
    hide Revalidate, Current, Candidates, Serving, CheckLines;
    forall i | 0 <= i < |items| ensures DemandsOf(items, lines)[i] == Asked(c, snaps, store, market, currency, items)[i] {
      LineFactsAt(c, snaps, store, market, currency, items, i);
      CandidatesServe(c, snaps, store, market, currency, items[i]);
    }
  }

  // ---- The whole transaction.

  /** Session, cart and request as the transaction needs to find them. */
  ghost predicate Ready(t: Tables, store: Id, request: FinalizeRequest, now: Time) {
    && store != 0 && request.session != 0 && request.session in t.sessions
    && var s := t.sessions[request.session];
    && s.store == store && s.status == SessionOpen && now < s.expiresAt && s.digestLength == 32
    && s.cart != 0 && s.cart in t.carts
    && var cart := t.carts[s.cart];
    && cart.store == store && cart.status == CartActive && cart.items != [] && !Blank(cart.market)
    && (forall i :: 0 <= i < |cart.items| ==>
          && cart.items[i].listing != 0 && cart.items[i].sku != 0 && cart.items[i].quantity > 0 && cart.items[i].price >= 0
          && !Blank(cart.items[i].currency))
    && store in t.catalog.stores && t.catalog.stores[store].active && t.catalog.stores[store].market == cart.market
    && cart.market in t.catalog.markets
    && !Blank(request.address.recipient) && !Blank(request.address.line1) && !Blank(request.address.city) && !Blank(request.email)
    && |request.address.country| == 2 && !Blank([request.address.country[0]]) && !Blank([request.address.country[1]])
  }

  /** The names and costs the order will record are acceptable. */
  ghost predicate Recordable(c: Catalog, line: CartItem)
    requires line.listing in c.listings && line.sku in c.skus && c.listings[line.listing].product in c.products
    requires c.listings[line.listing].offer.Some? ==>
      c.listings[line.listing].offer.value in c.offers && c.offers[c.listings[line.listing].offer.value].price.Some?
  {
    var p := c.products[c.listings[line.listing].product];
    && !(Blank(p.slug) && (p.name.None? || Blank(p.name.value)))
    && !Blank(c.skus[line.sku].code)
    && (c.listings[line.listing].offer.Some? ==> c.offers[c.listings[line.listing].offer.value].price.value.amount >= 0)
  }

  /** Every line can be sold now. */
  ghost predicate Sellable(t: Tables, store: Id, items: seq<CartItem>, market: string)
    requires market in t.catalog.markets
  {
    var currency := t.catalog.markets[market];
    && AllCurrent(t.catalog, store, market, currency, items)
    && (forall i :: 0 <= i < |items| ==> Recordable(t.catalog, items[i]))
    && Amounts.Total(items) <= MAX_INT64
    && Plannable(Asked(t.catalog, t.snapshots, store, market, currency, items), t.snapshots)
  }

  lemma BlankText(s: string)
    ensures Blank("") && (s == "" ==> Blank(s))
  {
  }

  lemma OpensWhenReady(t: Tables, store: Id, request: FinalizeRequest, now: Time)
    requires !Finalized(t, request.session)
    ensures Ready(t, store, request, now) ==> Opened(t, store, request, now).Ok?
    ensures Opened(t, store, request, now).Ok? ==>
      && store != 0 && request.session != 0 && request.session in t.sessions
      && var s := t.sessions[request.session];
      && s.store == store && s.status == SessionOpen && now < s.expiresAt && s.cart != 0 && s.cart in t.carts
      && var cart := t.carts[s.cart];
      && cart.store == store && cart.status == CartActive && cart.items != [] && !Blank(request.email)
      && (forall i :: 0 <= i < |cart.items| ==>
            && cart.items[i].listing != 0 && cart.items[i].sku != 0 && cart.items[i].quantity > 0 && cart.items[i].price >= 0
            && !Blank(cart.items[i].currency))
  {
    BlankText(request.address.recipient);
  }

  lemma AcceptExact(t: Tables, store: Id, request: FinalizeRequest, now: Time)
    requires Opened(t, store, request, now).Ok? && !Finalized(t, request.session)
    ensures SessionIn(t, store, request.session) && CartIn(t, store, t.sessions[request.session].cart)
    ensures var cart := t.carts[t.sessions[request.session].cart];
            && (Accept(t, store, request).Ok? && !Blank(cart.market) ==> Ready(t, store, request, now))
            && (Ready(t, store, request, now) ==>
                  (Accept(t, store, request).Ok? <==>
                   AcceptedCart(t.catalog, t.snapshots, store, cart.market, t.catalog.markets[cart.market], cart.items).Ok?))
  {
    OpensWhenReady(t, store, request, now);
    OpenedFits(t, store, request, now);
    hide AcceptedCart, Opened;
  }

  // ---- The checks of the order row.

  lemma ItemAcceptedExact(c: Catalog, store: Id, market: string, currency: string, line: CartItem, item: OrderItem)
    requires Copies(item, line) && Describes(c, item) && LineFits(line) && Current(c, store, market, currency, line)
    requires item.location != NO_ID && item.reservation != NO_ID
    ensures ItemAccepted(item) <==> Recordable(c, line)
  {
  }

  lemma LocationNamed(c: Catalog, snaps: map<Id, Snapshot>, store: Id, market: string, sku: Id, supplier: Option<Id>, k: Id)
    requires NO_ID !in c.locations && k in Candidates(c, snaps, store, market, sku, supplier)
    ensures k in snaps && snaps[k].location != NO_ID
  {
  }

  lemma ItemsAccepted(t: Tables, store: Id, market: string, items: seq<CartItem>, a: Accepted, rids: seq<Id>, i: nat)
    requires AcceptedCart(t.catalog, t.snapshots, store, market, a.currency, items) == Ok(a) && Amounts.AllFit(items)
    requires |a.choices| == |a.cart.lines| == |items| == |rids| && i < |items| && rids[i] != NO_ID
    requires NO_ID !in t.catalog.locations && a.choices[i] in t.snapshots
    ensures Current(t.catalog, store, market, a.currency, items[i])
    ensures ItemAccepted(NewItem(items[i], a.cart.lines[i], t.snapshots, a.choices[i], rids[i])) <==> Recordable(t.catalog, items[i])
  {
    hide AcceptedCart, Candidates, Revalidate, Current, Recordable, ItemAccepted, Copies, Describes, Amounts.AllFit, NewItem;
    var item := NewItem(items[i], a.cart.lines[i], t.snapshots, a.choices[i], rids[i]);
    CartSays(t.catalog, t.snapshots, store, market, a.currency, items, a);
    RevalidateExact(t.catalog, store, market, a.currency, items[i]);
    ItemCopies(t.catalog, store, market, a.currency, items[i], a.cart.lines[i], t.snapshots, a.choices[i], rids[i]);
    LocationNamed(t.catalog, t.snapshots, store, market, items[i].sku, a.cart.lines[i].facts.supplier, a.choices[i]);
    FitsAt(items, i);
    ItemAcceptedExact(t.catalog, store, market, a.currency, items[i], item);
  }

  lemma FitsAt(items: seq<CartItem>, i: nat)
    requires Amounts.AllFit(items) && i < |items|
    ensures LineFits(items[i])
  {
  }

  /** The slots of the new order row are free. */
  ghost predicate Free(t: Tables, o: Order) {
    o.session !in t.bySession && (o.store, o.number) !in t.byNumber
  }

  lemma CreateExact(t: Tables, o: Order, id: Id)
    requires id != NO_ID && id !in t.orders && Free(t, o) && o.store != NO_ID && o.session != NO_ID && !Blank(o.currency)
    requires o.subtotal >= 0 && o.total >= 0 && o.deadline != 0 && o.digestLength == 32
    ensures CreateFault(t, id, o).None? <==> !Blank(o.market) && forall i :: 0 <= i < |o.items| ==> ItemAccepted(o.items[i])
  {
    hide ItemAccepted;
  }

  lemma CurrencySpelled(c: Catalog, store: Id, market: string, currency: string, items: seq<CartItem>)
    requires AllCurrent(c, store, market, currency, items) && items != [] && !Blank(items[0].currency)
    ensures !Blank(currency)
  {
  }

  lemma OrderingCurrent(t: Tables, store: Id, request: FinalizeRequest, a: Accepted, f: Fresh, at: Time, duration: int, o: Order)
    requires Ordering(t, store, request, a, f, at, duration, o) && NO_ID !in t.catalog.locations
    ensures var cart := t.carts[t.sessions[request.session].cart];
            && AllCurrent(t.catalog, store, cart.market, a.currency, cart.items)
            && ((forall i :: 0 <= i < |o.items| ==> ItemAccepted(o.items[i])) <==> forall i :: 0 <= i < |cart.items| ==> Recordable(t.catalog, cart.items[i]))
  {
    hide Accept, AcceptedCart, ItemAccepted, Recordable, NewItem, FreshFor, Amounts.AllFit;
    var cart := t.carts[t.sessions[request.session].cart];
    AcceptSays(t, store, request);
    OrderingNames(t, store, request, a, f, at, duration, o);
    forall i | 0 <= i < |cart.items|
      ensures Current(t.catalog, store, cart.market, a.currency, cart.items[i])
      ensures ItemAccepted(o.items[i]) <==> Recordable(t.catalog, cart.items[i])
    {
      ItemsAccepted(t, store, cart.market, cart.items, a, f.reservations, i);
    }
  }

  lemma OrderingNames(t: Tables, store: Id, request: FinalizeRequest, a: Accepted, f: Fresh, at: Time, duration: int, o: Order)
    requires Ordering(t, store, request, a, f, at, duration, o)
    ensures f.order != NO_ID && forall i :: 0 <= i < |f.reservations| ==> f.reservations[i] != NO_ID
  {
    hide Accept, NewOrder;
  }

  /** Once the cart is accepted only the spelling of names and costs can still refuse. */
  lemma OrderingExact(t: Tables, store: Id, request: FinalizeRequest, a: Accepted, f: Fresh, at: Time, duration: int, o: Order)
    requires Ordering(t, store, request, a, f, at, duration, o) && NO_ID !in t.catalog.locations && Free(t, o)
    requires store != NO_ID && request.session != NO_ID && ItemsOf(t, request.session) != [] && !Blank(ItemsOf(t, request.session)[0].currency)
    ensures var cart := t.carts[t.sessions[request.session].cart];
            && AllCurrent(t.catalog, store, cart.market, a.currency, cart.items)
            && (CreateFault(t, f.order, o).None? <==>
                !Blank(cart.market) && forall i :: 0 <= i < |cart.items| ==> Recordable(t.catalog, cart.items[i]))
  {
    var cart := t.carts[t.sessions[request.session].cart];
    Amounts.TotalNonNegative(cart.items);
    OrderingHolds(t, store, request, a, f, at, duration, o);
    hide Ordering, ItemAccepted, Recordable, CreateFault, Amounts.Total, Current;
    OrderingHeader(t, store, request, a, f, at, duration, o);
    OrderingNames(t, store, request, a, f, at, duration, o);
    OrderingCurrent(t, store, request, a, f, at, duration, o);
    OrderingCurrency(t, store, request, a, f, at, duration, o);
    CurrencySpelled(t.catalog, store, cart.market, a.currency, cart.items);
    CreateExact(t, o, f.order);
  }

  lemma OrderingCurrency(t: Tables, store: Id, request: FinalizeRequest, a: Accepted, f: Fresh, at: Time, duration: int, o: Order)
    requires Ordering(t, store, request, a, f, at, duration, o)
    ensures o.currency == a.currency && o.deadline > at
    ensures a.currency == t.catalog.markets[t.carts[t.sessions[request.session].cart].market]
  {
    hide Accept, NewItems, FreshFor, Amounts.AllFit;
    AcceptSays(t, store, request);
  }

  /** A placement, once the session is open, succeeds exactly when the store is in order
      and the lines can be sold. */
  lemma PlaceExact(t: Tables, store: Id, request: FinalizeRequest, fp: Fingerprint, now: Time, at: Time, duration: int, f: Fresh)
    requires Opened(t, store, request, now) == Ok(fp) && !Finalized(t, request.session) && Placing(t, store, request, f)
    requires CheckoutOk(t) && NO_ID !in t.catalog.locations
    ensures Place(t, store, request, fp, at, duration, f).1.Ok? <==>
      Ready(t, store, request, now) && Sellable(t, store, ItemsOf(t, request.session), t.carts[t.sessions[request.session].cart].market)
  {
    hide Opened, Accept, AcceptedCart, NewOrder, CreateFault, Place, AllCurrent, Recordable, Plannable, Amounts.AllFit, Ordering,
      FreshFor, Placed, HoldAll, CheckoutOk;
    var cart := t.carts[t.sessions[request.session].cart];
    OpensWhenReady(t, store, request, now);
    AcceptExact(t, store, request, now);
    if Accept(t, store, request).Ok? {
      var a := Accept(t, store, request).value;
      AcceptSays(t, store, request);
      PlaceOrders(t, store, request, fp, now, at, duration, f, a);
    } else {
      PlaceRefused(t, store, request, fp, at, duration, f);
    }
    if Ready(t, store, request, now) {
      CartAccepted(t.catalog, t.snapshots, store, cart.market, t.catalog.markets[cart.market], cart.items);
    }
  }

  lemma PlaceRefused(t: Tables, store: Id, request: FinalizeRequest, fp: Fingerprint, at: Time, duration: int, f: Fresh)
    requires Placing(t, store, request, f) && Accept(t, store, request).Err?
    ensures Place(t, store, request, fp, at, duration, f).1.Err?
  {
    hide Accept;
  }

  lemma PlaceOrders(t: Tables, store: Id, request: FinalizeRequest, fp: Fingerprint, now: Time, at: Time, duration: int, f: Fresh, a: Accepted)
    requires Opened(t, store, request, now) == Ok(fp) && !Finalized(t, request.session) && Placing(t, store, request, f)
    requires CheckoutOk(t) && NO_ID !in t.catalog.locations && Accept(t, store, request) == Ok(a)
    ensures var cart := t.carts[t.sessions[request.session].cart];
            && cart.market in t.catalog.markets && AllCurrent(t.catalog, store, cart.market, t.catalog.markets[cart.market], cart.items)
            && (Place(t, store, request, fp, at, duration, f).1.Ok? <==>
                !Blank(cart.market) && forall i :: 0 <= i < |cart.items| ==> Recordable(t.catalog, cart.items[i]))
  {
    hide Opened, Accept, NewOrder, CreateFault, Place, AllCurrent, Recordable, Amounts.AllFit, Placed, HoldAll, CheckoutOk, MayClose, Ready;
    OpenedMayClose(t, store, request, now);
    SlotsFree(t, request, fp, store);
    OpensWhenReady(t, store, request, now);
    PlanInSnapshots(t, store, request);
    PlaceIs(t, store, request, fp, at, duration, f, a);
    var o := NewOrder(t, store, request, a, f, at, at + Confirmation(duration));
    assert Ordering(t, store, request, a, f, at, duration, o);
    hide Ordering;
    OrderingHeader(t, store, request, a, f, at, duration, o);
    OrderingCurrency(t, store, request, a, f, at, duration, o);
    AcceptSays(t, store, request);
    OrderingExact(t, store, request, a, f, at, duration, o);
  }

  /** The whole condition: a session not finalized before places its order if and only if
      session, cart, store and request are as they must be and every line can be sold. A
      line whose listing price moved, whose listing, product, variant, SKU or offer went
      out of sale, or that no single snapshot can carry beside the other lines stops it. */
  lemma FinalizeExact(t: Tables, store: Id, request: FinalizeRequest, now: Time, at: Time, duration: int, f: Fresh)
    requires CheckoutOk(t) && AttemptFresh(t, request, f) && !Finalized(t, request.session) && NO_ID !in t.catalog.locations
    ensures FinalizeCheckout(t, store, request, now, at, duration, f).1.Ok? <==>
      Ready(t, store, request, now) && Sellable(t, store, ItemsOf(t, request.session), t.carts[t.sessions[request.session].cart].market)
  {
    var fp := Opened(t, store, request, now);
    OpensWhenReady(t, store, request, now);
    if fp.Ok? {
      OpenedFits(t, store, request, now);
      hide Opened, Place, FreshFor, Amounts.AllFit, Ready, Sellable, CheckoutOk;
      PlaceExact(t, store, request, fp.value, now, at, duration, f);
    }
  }
}
