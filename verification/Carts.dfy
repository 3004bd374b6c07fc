/** The shape of carts over every run: lines in (listing, sku) order, one per listing and
    SKU, quantities within the limit (modules/commerce/customer_cart.go:220-331). */
module Carts {
  import opened Base
  import opened Records
  import opened Fingerprints
  import opened Tables
  import opened Checkout
  import opened Finalize
  import opened Placement
  import opened Sessions
  import opened Commands
  import opened Purchases
  import opened Runs
  import Ledger

  predicate KeyBelow(a: CartItem, b: CartItem) {
    a.listing < b.listing || (a.listing == b.listing && a.sku < b.sku)
  }

  ghost predicate Shaped(items: seq<CartItem>) {
    && (forall i, j :: 0 <= i < j < |items| ==> KeyBelow(items[i], items[j]))
    && (forall i :: 0 <= i < |items| ==> 0 < items[i].quantity <= MAX_LINE_QUANTITY)
  }

  ghost predicate CartsShaped(carts: map<Id, Cart>) {
    forall c :: c in carts ==> Shaped(carts[c].items)
  }

  // ---- The edits.

  lemma {:induction false} InsertIn(items: seq<CartItem>, item: CartItem, x: CartItem)
    ensures x in InsertItem(items, item) <==> x in items || x == item
  {
    if items != [] && KeyBelow(items[0], item) {
      assert items == [items[0]] + items[1..];
      InsertIn(items[1..], item, x);
    }
  }

  lemma {:induction false} InsertKeeps(items: seq<CartItem>, item: CartItem)
    requires Shaped(items) && 0 < item.quantity <= MAX_LINE_QUANTITY && FindItem(items, item.listing, item.sku).None?
    ensures Shaped(InsertItem(items, item))
  {
    if items != [] && KeyBelow(items[0], item) {
      var rest := items[1..];
      assert forall i :: 0 <= i < |rest| ==> rest[i] == items[i + 1];
      InsertKeeps(rest, item);
      var grown := InsertItem(rest, item);
      forall i | 0 <= i < |grown| ensures KeyBelow(items[0], grown[i]) {
        InsertIn(rest, item, grown[i]);
      }
    } else if items != [] {
      NotHere(items, item.listing, item.sku);
      assert forall i :: 0 <= i < |items| ==> KeyBelow(item, items[i]);
    }
  }

  lemma NotHere(items: seq<CartItem>, listing: Id, sku: Id)
    requires items != [] && FindItem(items, listing, sku).None?
    ensures items[0].listing != listing || items[0].sku != sku
  {
  }

  lemma {:induction false} WithoutIn(items: seq<CartItem>, item: Id, x: CartItem)
    ensures x in Without(items, item) <==> x in items && x.id != item
  {
    if items != [] {
      assert items == [items[0]] + items[1..];
      WithoutIn(items[1..], item, x);
    }
  }

  lemma {:induction false} WithoutKeeps(items: seq<CartItem>, item: Id)
    requires Shaped(items)
    ensures Shaped(Without(items, item))
  {
    if items != [] {
      var rest := items[1..];
      assert forall i :: 0 <= i < |rest| ==> rest[i] == items[i + 1];
      WithoutKeeps(rest, item);
      var kept := Without(rest, item);
      forall i | 0 <= i < |kept| ensures KeyBelow(items[0], kept[i]) {
        WithoutIn(rest, item, kept[i]);
      }
    }
  }

  lemma EditKeeps(items: seq<CartItem>, edit: CartEdit)
    requires Shaped(items) && (edit.SetQuantity? ==> 0 < edit.quantity <= MAX_LINE_QUANTITY)
    ensures Shaped(EditedItems(items, edit))
  {
    if edit.RemoveItem? { WithoutKeeps(items, edit.item); }
  }

  lemma OneCart(t: Tables, t': Tables, cart: Id, items: seq<CartItem>)
    requires cart in t.carts && t' == WithItems(t, cart, items) && CartsShaped(t.carts) && Shaped(items)
    ensures CartsShaped(t'.carts)
  {
  }

  lemma AddKeeps(t: Tables, store: Id, cart: Id, item: Id, sku: Id, quantity: int)
    requires CartsShaped(t.carts)
    ensures CartsShaped(AddCartItem(t, store, cart, item, sku, quantity).0.carts)
  {
    hide ResolveListing, CartsShaped, InsertItem;
    var (t', r) := AddCartItem(t, store, cart, item, sku, quantity);
    if r.Ok? {
      var items := t.carts[cart].items;
      var listing := ResolveListing(t.catalog, store, t.carts[cart].market, sku).value;
      ListingResolved(t.catalog, store, t.carts[cart].market, sku);
      var price := t.catalog.listings[listing].price.value;
      CartShape(t.carts, cart);
      FindItemBound(items, listing, sku);
      if FindItem(items, listing, sku).None? {
        InsertKeeps(items, CartItem(item, listing, sku, quantity, price.amount, price.currency));
      }
      OneCart(t, t', cart, t'.carts[cart].items);
    }
  }

  lemma CartShape(carts: map<Id, Cart>, cart: Id)
    requires CartsShaped(carts) && cart in carts
    ensures Shaped(carts[cart].items)
  {
  }

  lemma CartStepKeeps(t: Tables, id: Id, c: CartCommand)
    requires CartsShaped(t.carts)
    ensures CartsShaped(CartStep(t, id, c).carts)
  {
    match c {
      case NewCart(store, market, customer) => hide CustomerHasActiveCart;
      case AddItem(store, item, sku, quantity) =>
        hide AddCartItem, CartsShaped;
        AddKeeps(t, store, id, item, sku, quantity);
      case Edit(store, edit) =>
        hide CartsShaped;
        if EditCart(t, store, id, edit).1.Ok? {
          CartShape(t.carts, id);
          EditKeeps(t.carts[id].items, edit);
          OneCart(t, CartStep(t, id, c), id, EditedItems(t.carts[id].items, edit));
        }
    }
  }

  lemma CloseKeeps(t: Tables, t': Tables, request: FinalizeRequest, fp: Fingerprint, id: Id, o: Order)
    requires Closes(t, t', request, fp, id, o) && CartsShaped(t.carts)
    ensures CartsShaped(t'.carts)
  {
    CartShape(t.carts, t.sessions[request.session].cart);
  }

  lemma StepKeepsCarts(t: Tables, step: Step)
    requires Enabled(t, step) && CartsShaped(t.carts)
    requires Inv(t)
    ensures CartsShaped(Apply(t, step).carts)
  {
    hide Inv, CartsShaped, OrderStep, CartStep, StockStep, FinalizeCheckout, CreateCheckoutSession, Closes;
    match step {
      case OnOrder(id, c) => OrderStepAllowed(t, id, c);
      case OnCart(id, c) => CartStepKeeps(t, id, c);
      case OnStock(id, c) => StockCarts(t, id, c);
      case NewSession(id, store, cart, customer, lifetime, now) => SessionCarts(t, id, store, cart, customer, lifetime, now);
      case Finalize(store, request, now, at, duration, f) =>
        FinalizeOutcome(t, store, request, now, at, duration, f);
        var (t', r) := FinalizeCheckout(t, store, request, now, at, duration, f);
        if r.Ok? && !Finalized(t, request.session) {
          CloseKeeps(t, t', request, Opened(t, store, request, now).value, f.order, r.value);
        }
      case Rewrite(catalog) =>
    }
  }

  lemma StockCarts(t: Tables, id: Id, c: StockCommand)
    requires Inv(t) && (c.NewSnapshot? ==> id != NO_ID)
    ensures StockStep(t, id, c).carts == t.carts
  {
    assert Ledger.StockOk(t);
    hide Inv, Ledger.BooksOk, CreateInventorySnapshot, AdjustInventory, ReserveInventory;
    match c {
      case NewSnapshot(location, sku, onHand) => CreateKeepsStock(t, id, location, sku, onHand);
      case Adjust(delta, movementType) => AdjustKeepsStock(t, id, delta, movementType);
      case Reserve(quantity, token, reservation, expiresAt) => ReserveKeepsStock(t, id, quantity, token, reservation, expiresAt);
    }
  }

  lemma SessionCarts(t: Tables, id: Id, store: Id, cart: Id, customer: Option<Id>, lifetime: int, now: Time)
    ensures CreateCheckoutSession(t, id, store, cart, customer, lifetime, now).0.carts == t.carts
  {
    var t' := CreateCheckoutSession(t, id, store, cart, customer, lifetime, now).0;
    hide CartIn;
    assert t' == t || t' == t.(sessions := t'.sessions);
  }

  /** Over every run carts keep their shape. */
  lemma {:induction false} RunKeepsCarts(t: Tables, steps: seq<Step>)
    requires Inv(t) && CartsShaped(t.carts) && Possible(t, steps)
    ensures CartsShaped(Run(t, steps).carts)
    decreases |steps|
  {
    if steps != [] {
      hide Inv, CartsShaped, Apply, Enabled, Later;
      StepKeepsInv(t, steps[0]);
      StepKeepsCarts(t, steps[0]);
      RunKeepsCarts(Apply(t, steps[0]), steps[1..]);
    }
  }

  /** Lines of such a cart are uniquely keyed and in order already: the fingerprint's sort
      leaves them as they are, and any other order of them sorts to the same sequence. */
  lemma LoadedCartIsSorted(items: seq<CartItem>, other: seq<Line>)
    requires Shaped(items) && multiset(other) == multiset(LinesOf(items))
    ensures InsertionSort(LinesOf(items)) == LinesOf(items)
    ensures InsertionSort(other) == LinesOf(items)
  {
    var lines := LinesOf(items);
    forall i, j | 0 <= i < j < |lines| ensures Before(lines[i], lines[j]) { assert KeyBelow(items[i], items[j]); }
    assert Fingerprints.Sorted(lines);
    SortPermutes(lines);
    SortOrders(lines);
    SortedUnique(lines, InsertionSort(lines));
    SortCanonical(lines, other);
  }
}
