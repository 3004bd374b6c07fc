/** What each cart command does, condition and effect written out
    (modules/commerce/customer_cart.go:141-331). */
module CartEffects {
  import opened Base
  import opened Money
  import opened Records
  import opened Tables
  import opened Checkout
  import opened Finalize
  import opened Placement
  import opened Sessions
  import opened Commands
  import opened Purchases
  import opened Runs
  import opened Carts
  import Catalogue

  /** The one change of the command: a new version of the cart, at its place. */
  ghost predicate OnlyCart(t: Tables, t': Tables, id: Id, cart: Cart) {
    t' == t.(carts := t.carts[id := cart])
  }

  ghost predicate MayEdit(t: Tables, store: Id, cart: Id) {
    cart in t.carts && t.carts[cart].store == store && t.carts[cart].status == CartActive
  }

  // ---- Adding.

  /** The listing under which the store sells the SKU: both the SKU and its variant are
      active, and the listing is the canonical one of the variant's product. */
  ghost predicate SoldAs(c: Catalog, store: Id, market: string, sku: Id, listing: Id) {
    && sku in c.skus && c.skus[sku].active
    && c.skus[sku].variant in c.variants && c.variants[c.skus[sku].variant].active
    && Catalogue.Canonical(c, store, market, c.variants[c.skus[sku].variant].product, listing)
  }

  lemma ResolvedExact(c: Catalog, store: Id, market: string, sku: Id, listing: Id)
    ensures ResolveListing(c, store, market, sku) == Ok(listing) <==>
            SoldAs(c, store, market, sku, listing) && c.listings[listing].price.value.currency == c.markets[market]
    ensures SoldAs(c, store, market, sku, listing) && c.listings[listing].price.value.currency != c.markets[market] ==>
            ResolveListing(c, store, market, sku) == Err(MarketMismatch)
    ensures (forall l: Id :: !SoldAs(c, store, market, sku, l)) ==> ResolveListing(c, store, market, sku) == Err(NotFound)
  {
    if sku in c.skus && c.skus[sku].variant in c.variants {
      var product := c.variants[c.skus[sku].variant].product;
      hide CanonicalListing;
      CanonicalListingExact(c, store, market, product, listing);
      CanonicalListingFound(c, store, market, product);
      var found := CanonicalListing(c, store, market, product);
      if found.Some? && c.skus[sku].active && c.variants[c.skus[sku].variant].active {
        assert SoldAs(c, store, market, sku, found.value);
      }
    }
  }

  predicate LineAt(items: seq<CartItem>, x: CartItem, listing: Id, sku: Id) {
    x in items && x.listing == listing && x.sku == sku
  }

  /** The line of the listing and SKU holds the old quantity and the added one at the
      present price; without an old line it is a new one. Every other line is kept. */
  ghost predicate Added(was: seq<CartItem>, items: seq<CartItem>, id: Id, listing: Id, sku: Id, quantity: int, price: Price) {
    && (forall x: CartItem :: x.listing != listing || x.sku != sku ==> (x in items <==> x in was))
    && (exists x :: LineAt(items, x, listing, sku))
    && (forall x :: LineAt(items, x, listing, sku) ==> x.price == price.amount && x.currency == price.currency)
    && (forall x, y :: LineAt(items, x, listing, sku) && LineAt(was, y, listing, sku) ==>
          x.id == y.id && x.quantity == y.quantity + quantity)
    && (forall x :: LineAt(items, x, listing, sku) && (forall y :: !LineAt(was, y, listing, sku)) ==>
          x.id == id && x.quantity == quantity)
  }

  ghost predicate Fits(items: seq<CartItem>, listing: Id, sku: Id, quantity: int) {
    0 < quantity <= 10000 && forall x :: LineAt(items, x, listing, sku) ==> x.quantity + quantity <= 10000
  }

  lemma OneLine(items: seq<CartItem>, listing: Id, sku: Id)
    requires Shaped(items)
    ensures var n := FindItem(items, listing, sku);
      n.Some? ==> n.value < |items| && forall x :: LineAt(items, x, listing, sku) <==> x == items[n.value]
    ensures FindItem(items, listing, sku).None? ==> forall x :: !LineAt(items, x, listing, sku)
  {
    FindItemBound(items, listing, sku);
    forall x | LineAt(items, x, listing, sku)
      ensures FindItem(items, listing, sku).Some? && x == items[FindItem(items, listing, sku).value]
    {
      var i :| 0 <= i < |items| && items[i] == x;
      assert FindItem(items, listing, sku).Some?;
      var n := FindItem(items, listing, sku).value;
      assert !(i < n && KeyBelow(items[i], items[n])) && !(n < i && KeyBelow(items[n], items[i]));
    }
  }

  lemma RaisedLine(was: seq<CartItem>, n: nat, line: CartItem, id: Id, quantity: int, price: Price)
    requires Shaped(was) && n < |was|
    requires line.listing == was[n].listing && line.sku == was[n].sku && line.id == was[n].id
    requires line.price == price.amount && line.currency == price.currency && line.quantity == was[n].quantity + quantity
    ensures Added(was, was[n := line], id, line.listing, line.sku, quantity, price)
  {
    var items := was[n := line];
    assert items[n] == line && LineAt(items, line, line.listing, line.sku);
    assert LineAt(was, was[n], line.listing, line.sku);
    forall i | 0 <= i < |was| && i != n ensures was[i].listing != line.listing || was[i].sku != line.sku {
      assert i < n ==> KeyBelow(was[i], was[n]);
      assert n < i ==> KeyBelow(was[n], was[i]);
    }
    forall x: CartItem | x.listing != line.listing || x.sku != line.sku ensures x in items <==> x in was {
      if x in was { var i :| 0 <= i < |was| && was[i] == x; assert i != n && items[i] == x; }
      if x in items { var i :| 0 <= i < |items| && items[i] == x; assert i != n && was[i] == x; }
    }
    forall x | LineAt(items, x, line.listing, line.sku) ensures x == line {
      var i :| 0 <= i < |items| && items[i] == x;
    }
    forall x | LineAt(was, x, line.listing, line.sku) ensures x == was[n] {
      var i :| 0 <= i < |was| && was[i] == x;
    }
  }

  lemma NewLine(was: seq<CartItem>, line: CartItem, price: Price)
    requires forall x :: !LineAt(was, x, line.listing, line.sku)
    requires line.price == price.amount && line.currency == price.currency
    ensures Added(was, InsertItem(was, line), line.id, line.listing, line.sku, line.quantity, price)
  {
    var items := InsertItem(was, line);
    forall x: CartItem ensures x in items <==> x in was || x == line { InsertIn(was, line, x); }
    assert LineAt(items, line, line.listing, line.sku);
    forall x | LineAt(items, x, line.listing, line.sku) ensures x == line {
      assert x in was ==> LineAt(was, x, line.listing, line.sku);
    }
  }

  ghost predicate MayAdd(t: Tables, store: Id, cart: Id, sku: Id, quantity: int, listing: Id) {
    && store != NO_ID && cart != NO_ID && sku != NO_ID && MayEdit(t, store, cart)
    && SoldAs(t.catalog, store, t.carts[cart].market, sku, listing)
    && t.catalog.listings[listing].price.value.currency == t.catalog.markets[t.carts[cart].market]
    && Fits(t.carts[cart].items, listing, sku, quantity)
  }

  ghost predicate AddsLine(t: Tables, t': Tables, cart: Id, id: Id, sku: Id, quantity: int, listing: Id, after: Cart) {
    && cart in t.carts && listing in t.catalog.listings && t.catalog.listings[listing].price.Some?
    && OnlyCart(t, t', cart, after) && after == t.carts[cart].(items := after.items)
    && Added(t.carts[cart].items, after.items, id, listing, sku, quantity, t.catalog.listings[listing].price.value)
  }

  /** Either the found line grows or a new one is put in. */
  lemma GrownItems(was: seq<CartItem>, id: Id, listing: Id, sku: Id, quantity: Int64, price: Price)
    requires Shaped(was) && Fits(was, listing, sku, quantity)
    ensures var found := FindItem(was, listing, sku);
      if found.Some? then
        && found.value < |was| && 0 < was[found.value].quantity + quantity <= 10000
        && Added(was, was[found.value := was[found.value].(
             quantity := was[found.value].quantity + quantity, price := price.amount, currency := price.currency)],
             id, listing, sku, quantity, price)
      else Added(was, InsertItem(was, CartItem(id, listing, sku, quantity, price.amount, price.currency)), id, listing, sku, quantity, price)
  {
    hide Added;
    OneLine(was, listing, sku);
    FindItemBound(was, listing, sku);
    var found := FindItem(was, listing, sku);
    if found.Some? {
      var n := found.value;
      assert LineAt(was, was[n], listing, sku);
      RaisedLine(was, n, was[n].(quantity := was[n].quantity + quantity, price := price.amount, currency := price.currency), id, quantity, price);
    } else {
      NewLine(was, CartItem(id, listing, sku, quantity, price.amount, price.currency), price);
    }
  }

  /** The lines and the price the command finds. */
  ghost predicate AddReady(t: Tables, store: Id, cart: Id, id: Id, sku: Id, quantity: int, listing: Id) {
    && store != NO_ID && cart != NO_ID && sku != NO_ID && 0 < quantity <= 10000 && MayEdit(t, store, cart)
    && ResolveListing(t.catalog, store, t.carts[cart].market, sku) == Ok(listing)
    && listing in t.catalog.listings && t.catalog.listings[listing].price.Some?
    && Shaped(t.carts[cart].items) && Fits(t.carts[cart].items, listing, sku, quantity)
  }

  lemma AddMeetsReady(t: Tables, store: Id, cart: Id, id: Id, sku: Id, quantity: int, listing: Id)
    requires CartsShaped(t.carts) && MayAdd(t, store, cart, sku, quantity, listing)
    ensures AddReady(t, store, cart, id, sku, quantity, listing)
  {
    hide ResolveListing, CartsShaped, SoldAs, Shaped;
    ResolvedExact(t.catalog, store, t.carts[cart].market, sku, listing);
    ListingResolved(t.catalog, store, t.carts[cart].market, sku);
    CartShape(t.carts, cart);
  }

  lemma OneCartWritten(t: Tables, cart: Id, id: Id, listing: Id, sku: Id, quantity: int, items: seq<CartItem>)
    requires cart in t.carts && listing in t.catalog.listings && t.catalog.listings[listing].price.Some?
    requires Added(t.carts[cart].items, items, id, listing, sku, quantity, t.catalog.listings[listing].price.value)
    ensures var t' := WithItems(t, cart, items); AddsLine(t, t', cart, id, sku, quantity, listing, t'.carts[cart])
  {
    hide Added;
  }

  lemma AddedItems(t: Tables, store: Id, cart: Id, id: Id, sku: Id, quantity: int, listing: Id)
    requires AddReady(t, store, cart, id, sku, quantity, listing)
    ensures var (t', r) := AddCartItem(t, store, cart, id, sku, quantity);
      r.Ok? && AddsLine(t, t', cart, id, sku, quantity, listing, r.value)
  {
    hide ResolveListing, InsertItem, FindItem, Added, AddsLine, Shaped, Fits, WithItems;
    var was, price := t.carts[cart].items, t.catalog.listings[listing].price.value;
    GrownItems(was, id, listing, sku, quantity, price);
    var found := FindItem(was, listing, sku);
    if found.Some? {
      var grown := was[found.value := was[found.value].(
        quantity := was[found.value].quantity + quantity, price := price.amount, currency := price.currency)];
      OneCartWritten(t, cart, id, listing, sku, quantity, grown);
      assert AddCartItem(t, store, cart, id, sku, quantity).0 == WithItems(t, cart, grown);
    } else {
      var grown := InsertItem(was, CartItem(id, listing, sku, quantity, price.amount, price.currency));
      OneCartWritten(t, cart, id, listing, sku, quantity, grown);
      assert AddCartItem(t, store, cart, id, sku, quantity).0 == WithItems(t, cart, grown);
    }
  }

  /** Adding succeeds exactly when the SKU is sold in the store under a listing whose
      line stays within 10000. It then adds to that one line; a failure writes nothing. */
  lemma AddExact(t: Tables, store: Id, cart: Id, id: Id, sku: Id, quantity: int)
    requires CartsShaped(t.carts)
    ensures var (t', r) := AddCartItem(t, store, cart, id, sku, quantity);
      && (r.Ok? <==> exists listing: Id :: MayAdd(t, store, cart, sku, quantity, listing))
      && (forall listing: Id :: MayAdd(t, store, cart, sku, quantity, listing) ==>
            r.Ok? && AddsLine(t, t', cart, id, sku, quantity, listing, r.value))
      && (r.Err? ==> t' == t)
  {
    hide AddsLine, CartsShaped, Added;
    forall listing: Id | MayAdd(t, store, cart, sku, quantity, listing)
      ensures var (t', r) := AddCartItem(t, store, cart, id, sku, quantity);
        r.Ok? && AddsLine(t, t', cart, id, sku, quantity, listing, r.value)
    {
      AddMeetsReady(t, store, cart, id, sku, quantity, listing);
      AddedItems(t, store, cart, id, sku, quantity, listing);
    }
    AddNeeds(t, store, cart, id, sku, quantity);
  }

  lemma AddNeeds(t: Tables, store: Id, cart: Id, id: Id, sku: Id, quantity: int)
    requires CartsShaped(t.carts)
    ensures var (t', r) := AddCartItem(t, store, cart, id, sku, quantity);
      && (r.Ok? ==> exists listing: Id :: MayAdd(t, store, cart, sku, quantity, listing))
      && (r.Err? ==> t' == t)
  {
    hide ResolveListing, CartsShaped, InsertItem, SoldAs, Shaped;
    var (t', r) := AddCartItem(t, store, cart, id, sku, quantity);
    if r.Ok? {
      var listing := ResolveListing(t.catalog, store, t.carts[cart].market, sku).value;
      ResolvedExact(t.catalog, store, t.carts[cart].market, sku, listing);
      CartShape(t.carts, cart);
      OneLine(t.carts[cart].items, listing, sku);
      FindItemBound(t.carts[cart].items, listing, sku);
      assert MayAdd(t, store, cart, sku, quantity, listing);
    }
  }

  /** Some listing sells the SKU, in a currency that is or is not the market's. */
  ghost predicate Sells(c: Catalog, store: Id, market: string, sku: Id, own: bool) {
    exists l: Id :: SoldAs(c, store, market, sku, l) && own == (c.listings[l].price.value.currency == c.markets[market])
  }

  predicate Named(store: Id, cart: Id, sku: Id, quantity: int) {
    store != NO_ID && cart != NO_ID && sku != NO_ID && 0 < quantity <= 10000
  }

  /** Why adding is refused. */
  lemma AddRefusals(t: Tables, store: Id, cart: Id, id: Id, sku: Id, quantity: int)
    requires Named(store, cart, sku, quantity)
    ensures var e := AddCartItem(t, store, cart, id, sku, quantity).1;
      if !CartIn(t, store, cart) then e == Err(NotFound)
      else if t.carts[cart].status != CartActive then e == Err(CartExpired)
      else if Sells(t.catalog, store, t.carts[cart].market, sku, false) then e == Err(MarketMismatch)
      else if !Sells(t.catalog, store, t.carts[cart].market, sku, true) then e == Err(NotFound)
      else e.Ok? || e == Err(InvalidInput)
  {
    hide ResolveListing, InsertItem, FindItem, SoldAs;
    if CartIn(t, store, cart) {
      var market := t.carts[cart].market;
      ResolvedExact(t.catalog, store, market, sku, NO_ID);
      forall l: Id { ResolvedExact(t.catalog, store, market, sku, l); }
      forall l: Id | SoldAs(t.catalog, store, market, sku, l)
        ensures Sells(t.catalog, store, market, sku, true) || Sells(t.catalog, store, market, sku, false) { }
      if ResolveListing(t.catalog, store, market, sku).Ok? {
        assert SoldAs(t.catalog, store, market, sku, ResolveListing(t.catalog, store, market, sku).value);
        ListingResolved(t.catalog, store, market, sku);
      }
    }
  }

  // ---- Changing and removing.

  ghost predicate EditsLine(was: seq<CartItem>, items: seq<CartItem>, edit: CartEdit) {
    match edit
    case SetQuantity(item, quantity) =>
      && |items| == |was|
      && (forall i :: 0 <= i < |was| ==> items[i] == was[i].(quantity := items[i].quantity))
      && (forall i :: 0 <= i < |was| ==> items[i].quantity == if was[i].id == item then quantity else was[i].quantity)
    case RemoveItem(item) =>
      forall x: CartItem :: x in items <==> x in was && x.id != item
  }

  predicate EditFits(edit: CartEdit) {
    edit.item != NO_ID && (edit.SetQuantity? ==> 0 < edit.quantity <= 10000)
  }

  /** An edit works on any active cart of the store: a new quantity within 10000 goes to
      the named line in place, a removal takes that line away, all other lines stay. */
  lemma EditExact(t: Tables, store: Id, cart: Id, edit: CartEdit)
    ensures EditCart(t, store, cart, edit).1.Ok? <==> EditFits(edit) && MayEdit(t, store, cart)
    ensures var (t', r) := EditCart(t, store, cart, edit);
      && (r.Err? ==> t' == t)
      && (r.Ok? ==> OnlyCart(t, t', cart, r.value) && r.value == t.carts[cart].(items := r.value.items))
      && (r.Ok? ==> EditsLine(t.carts[cart].items, r.value.items, edit))
  {
    if edit.RemoveItem? && MayEdit(t, store, cart) {
      forall x: CartItem { WithoutIn(t.carts[cart].items, edit.item, x); }
    }
  }

  // ---- New carts.

  ghost predicate HasActive(carts: map<Id, Cart>, store: Id, customer: Option<Id>, id: Id) {
    id in carts && carts[id].store == store && carts[id].customer == customer && carts[id].status == CartActive
  }

  ghost predicate MayOpen(t: Tables, id: Id, store: Id, market: string, customer: Option<Id>) {
    && store != NO_ID && market != "" && id !in t.carts
    && store in t.catalog.stores && t.catalog.stores[store].market == market
    && (customer.Some? ==> forall k: Id :: !HasActive(t.carts, store, customer, k))
  }

  lemma CreateExact(t: Tables, id: Id, store: Id, market: string, customer: Option<Id>)
    ensures CreateCart(t, id, store, market, customer).1.Ok? <==> MayOpen(t, id, store, market, customer)
    ensures var (t', r) := CreateCart(t, id, store, market, customer);
      && (r.Err? ==> t' == t)
      && (r.Ok? ==> OnlyCart(t, t', id, r.value) && HasActive(t'.carts, store, customer, id))
      && (r.Ok? ==> r.value.market == market && r.value.items == [])
  {
    if CustomerHasActiveCart(t.carts, store, customer) {
      var k :| k in t.carts && t.carts[k].store == store && t.carts[k].customer == customer && t.carts[k].status == CartActive;
      assert HasActive(t.carts, store, customer, k);
    }
  }

  // ---- One active cart of a customer in a store, over every run.

  ghost predicate OneActiveEach(carts: map<Id, Cart>) {
    forall a, b, store, customer :: HasActive(carts, store, Some(customer), a) && HasActive(carts, store, Some(customer), b) ==> a == b
  }

  /** No cart of the later table is newly active. */
  ghost predicate NoneRevived(carts: map<Id, Cart>, carts': map<Id, Cart>) {
    forall k, store, customer :: HasActive(carts', store, customer, k) ==> HasActive(carts, store, customer, k)
  }

  lemma OpenedKeepsOne(t: Tables, t': Tables, id: Id, store: Id, market: string, customer: Option<Id>, cart: Cart)
    requires OneActiveEach(t.carts) && MayOpen(t, id, store, market, customer)
    requires OnlyCart(t, t', id, cart) && cart.store == store && cart.customer == customer
    ensures OneActiveEach(t'.carts)
  {
    forall a, s, k | HasActive(t'.carts, s, Some(k), a) && a != id
      ensures HasActive(t.carts, s, Some(k), a) && !HasActive(t'.carts, s, Some(k), id)
    {
      assert HasActive(t.carts, s, Some(k), a);
    }
  }

  lemma CartStepKeepsOne(t: Tables, id: Id, c: CartCommand)
    requires OneActiveEach(t.carts)
    ensures OneActiveEach(CartStep(t, id, c).carts)
  {
    match c {
      case NewCart(store, market, customer) =>
        CreateExact(t, id, store, market, customer);
        if CreateCart(t, id, store, market, customer).1.Ok? {
          OpenedKeepsOne(t, CartStep(t, id, c), id, store, market, customer, CreateCart(t, id, store, market, customer).1.value);
        }
      case AddItem(store, item, sku, quantity) =>
        AddLeavesActive(t, store, id, item, sku, quantity);
      case Edit(store, edit) =>
        EditExact(t, store, id, edit);
        assert NoneRevived(t.carts, CartStep(t, id, c).carts);
    }
  }

  lemma AddLeavesActive(t: Tables, store: Id, cart: Id, item: Id, sku: Id, quantity: int)
    ensures NoneRevived(t.carts, AddCartItem(t, store, cart, item, sku, quantity).0.carts)
  {
    hide ResolveListing, FindItem, InsertItem;
    if AddCartItem(t, store, cart, item, sku, quantity).1.Ok? {
      ListingResolved(t.catalog, store, t.carts[cart].market, sku);
    }
  }

  lemma StepKeepsOne(t: Tables, step: Step)
    requires Enabled(t, step) && OneActiveEach(t.carts)
    requires Inv(t)
    ensures OneActiveEach(Apply(t, step).carts)
  {
    hide Inv, OneActiveEach, OrderStep, CartStep, StockStep, FinalizeCheckout, CreateCheckoutSession, Closes;
    match step {
      case OnOrder(id, c) => OrderStepAllowed(t, id, c);
      case OnCart(id, c) => CartStepKeepsOne(t, id, c);
      case OnStock(id, c) => StockCarts(t, id, c);
      case NewSession(id, store, cart, customer, lifetime, now) => SessionCarts(t, id, store, cart, customer, lifetime, now);
      case Finalize(store, request, now, at, duration, f) =>
        FinalizeOutcome(t, store, request, now, at, duration, f);
        var (t', r) := FinalizeCheckout(t, store, request, now, at, duration, f);
        if r.Ok? && !Finalized(t, request.session) {
          CloseKeepsOne(t, t', request, Opened(t, store, request, now).value, f.order, r.value);
        }
      case Rewrite(catalog) =>
    }
  }

  lemma CloseKeepsOne(t: Tables, t': Tables, request: FinalizeRequest, fp: Fingerprint, id: Id, o: Order)
    requires Closes(t, t', request, fp, id, o) && OneActiveEach(t.carts)
    ensures OneActiveEach(t'.carts)
  {
    assert NoneRevived(t.carts, t'.carts);
  }

  /** Over every run a customer has at most one active cart in a store. */
  lemma {:induction false} RunKeepsOne(t: Tables, steps: seq<Step>)
    requires Inv(t) && OneActiveEach(t.carts) && Possible(t, steps)
    ensures OneActiveEach(Run(t, steps).carts)
    decreases |steps|
  {
    if steps != [] {
      hide Inv, OneActiveEach, Apply, Enabled, Later;
      StepKeepsInv(t, steps[0]);
      StepKeepsOne(t, steps[0]);
      RunKeepsOne(Apply(t, steps[0]), steps[1..]);
    }
  }
}
