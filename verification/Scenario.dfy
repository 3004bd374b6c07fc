/** One complete sale, from an empty database to a confirmed order: the steps of a run are
    possible and the checks of a finalize can all pass together. */
module Scenario {
  import opened Base
  import opened Money
  import opened Records
  import opened Inventory
  import opened Fingerprints
  import opened Tables
  import opened Checkout
  import opened Finalize
  import opened Sessions
  import Placement
  import opened Commands
  import opened Purchases
  import opened Runs
  import Amounts
  import Catalogue

  const SHOP: Id := 1
  const LISTING: Id := 10
  const PRODUCT: Id := 20
  const VARIANT: Id := 30
  const SKU: Id := 40
  const DEPOT: Id := 50
  const STOCK: Id := 60
  const CART: Id := 70
  const SESSION: Id := 90
  const ORDER: Id := 100
  const HOLD: Id := 110

  /** One store that sells one product from one depot. */
  function Shelf(): Catalog {
    Catalog(map[SHOP := Store("AE", true)], map["AE" := "AED"],
            map[LISTING := Listing(SHOP, PRODUCT, None, "AE", true, 5, Some(Price(100, "AED")))],
            map[PRODUCT := Product("lamp", None, true)], map[VARIANT := Variant(PRODUCT, true)],
            map[SKU := Sku(VARIANT, "L-1", true)], map[], map[],
            map[DEPOT := Location(Some(SHOP), None, "AE", true)], map[], {}, map[])
  }

  function Item(): CartItem { CartItem(80, LISTING, SKU, 2, 100, "AED") }

  function Request(): FinalizeRequest {
    FinalizeRequest(SESSION, ShippingAddress("Amal", "Street 1", None, "Dubai", None, None, "AE"), "a@example.com")
  }

  function Row(): Snapshot { Snapshot(DEPOT, SKU, 5, 5, 0, 0) }

  lemma NotBlank(s: string)
    requires s != [] && s[0] !in {' ', '\t', '\n', '\r'}
    ensures !Blank(s)
  {
  }

  /** Nothing sold yet: the shelf, its stock, and the given carts and sessions. */
  ghost predicate Open(u: Tables, carts: map<Id, Cart>, sessions: map<Id, Session>) {
    && u.catalog == Shelf() && u.snapshots == map[STOCK := Row()] && u.carts == carts && u.sessions == sessions
    && u.orders == map[] && u.timeline == map[] && u.events == map[] && u.reservations == map[]
    && u.bySession == map[] && u.byNumber == map[] && u.sequences == map[]
  }

  function FilledCart(): Cart { Cart(SHOP, "AE", None, CartActive, [Item()]) }

  function OpenSession(): Session { Session(SHOP, CART, None, SessionOpen, 10 + 1800 * SECOND, None, None, None, 32) }

  lemma StockArrives(t: Tables)
    requires t == Empty(Shelf())
    ensures Open(StockStep(t, STOCK, NewSnapshot(DEPOT, SKU, 5)), map[], map[])
  {
    hide Catalogue.StoresBySku, Catalogue.Bumped;
  }

  lemma CartOpens(t: Tables)
    requires Open(t, map[], map[])
    ensures Open(CartStep(t, CART, NewCart(SHOP, "AE", None)), map[CART := Cart(SHOP, "AE", None, CartActive, [])], map[])
  {
  }

  lemma ListingFound(c: Catalog)
    requires c == Shelf()
    ensures ResolveListing(c, SHOP, "AE", SKU) == Ok(LISTING)
  {
    assert Catalogue.Canonical(c, SHOP, "AE", PRODUCT, LISTING);
    CanonicalListingExact(c, SHOP, "AE", PRODUCT, LISTING);
  }

  lemma LineAdded(t: Tables)
    requires Open(t, map[CART := Cart(SHOP, "AE", None, CartActive, [])], map[])
    ensures Open(CartStep(t, CART, AddItem(SHOP, 80, SKU, 2)), map[CART := FilledCart()], map[])
  {
    ListingFound(t.catalog);
    hide ResolveListing;
    assert FindItem([], LISTING, SKU) == None;
    assert InsertItem([], Item()) == [Item()];
    assert t.carts[CART].items == [];
  }

  lemma SessionOpens(t: Tables)
    requires Open(t, map[CART := FilledCart()], map[])
    ensures Open(CreateCheckoutSession(t, SESSION, SHOP, CART, None, 0, 10).0, map[CART := FilledCart()], map[SESSION := OpenSession()])
  {
    assert DEFAULT_SESSION_LIFETIME / SECOND * SECOND == 1800 * SECOND;
  }

  /** The request passes every check before the replay branch. */
  lemma RequestOpens(t: Tables)
    requires Open(t, map[CART := FilledCart()], map[SESSION := OpenSession()])
    ensures Opened(t, SHOP, Request(), 20).Ok? && AddressOk(Request())
  {
    NotBlank("AED");
    NotBlank("a@example.com");
    NotBlank("Amal");
    NotBlank("Street 1");
    NotBlank("Dubai");
    NotBlank("A");
    NotBlank("E");
    assert ['A'] == "A" && ['E'] == "E";
    assert Request().address.country == "AE";
    hide Blank, InsertionSort;
  }

  function Facts(): LineFacts { LineFacts(PRODUCT, VARIANT, "lamp", "L-1", None, None, None, None) }

  /** What the finalize accepts: one line of 200 from the only snapshot. */
  ghost predicate Sells(a: Accepted) {
    && a.currency == "AED" && a.cart.subtotal == 200 && a.choices == [STOCK]
    && |a.cart.lines| == 1 && a.cart.lines[0].facts == Facts() && a.cart.lines[0].lineTotal == 200
  }

  lemma LineRevalidated(c: Catalog)
    requires c == Shelf()
    ensures Revalidate(c, SHOP, "AE", "AED", Item()) == Ok(Facts())
  {
  }

  /** The line passes revalidation, its stock is found and its money fits. */
  lemma LineAccepted(c: Catalog, snaps: map<Id, Snapshot>)
    requires c == Shelf() && snaps == map[STOCK := Row()]
    ensures AcceptedCart(c, snaps, SHOP, "AE", "AED", [Item()]).Ok?
    ensures Sells(AcceptedCart(c, snaps, SHOP, "AE", "AED", [Item()]).value)
  {
    var items := [Item()];
    LineRevalidated(c);
    assert STOCK in Candidates(c, snaps, SHOP, "AE", SKU, None);
    hide Revalidate, Candidates;
    Amounts.SubtotalExact(c, snaps, SHOP, "AE", "AED", items);
    assert Amounts.Total(items) == 200 by { assert items[..0] == []; }
    var lines := CheckLines(c, snaps, SHOP, "AE", "AED", items).value.lines;
    OneLine(c, snaps);
    OnePlan(DemandsOf(items, lines), snaps);
  }

  lemma OneLine(c: Catalog, snaps: map<Id, Snapshot>)
    requires c == Shelf() && CheckLines(c, snaps, SHOP, "AE", "AED", [Item()]).Ok?
    ensures var line := CheckLines(c, snaps, SHOP, "AE", "AED", [Item()]).value.lines[0];
            line.candidates == Candidates(c, snaps, SHOP, "AE", SKU, None) && line.facts == Facts()
  {
    LineRevalidated(c);
    hide CheckedMultiply, CheckedAdd, Candidates, Revalidate;
    assert [Item()][..0] == [];
  }

  lemma OnePlan(lines: seq<Demand>, snaps: map<Id, Snapshot>)
    requires |lines| == 1 && STOCK in lines[0].candidates && lines[0].quantity == 2 && snaps == map[STOCK := Row()]
    ensures Plan(lines, snaps) == Ok([STOCK])
  {
    assert lines[..0] == [];
    assert Plan([], snaps) == Ok([]);
    var fit := Fitting(lines[0].candidates, snaps, lines[0].quantity, TakenMap([], []));
    assert fit == {STOCK};
    assert Least(fit) == STOCK;
    assert Allocation(lines[0].candidates, snaps, lines[0].quantity, TakenMap([], [])) == Ok(STOCK);
    assert [] + [STOCK] == [STOCK];
  }

  /** Every check of the finalize passes and the order is placed. */
  lemma SalePlaced(t: Tables)
    requires Open(t, map[CART := FilledCart()], map[SESSION := OpenSession()])
    requires Inv(t)
    ensures AttemptFresh(t, Request(), Fresh(ORDER, [HOLD]))
    ensures var (u, r) := FinalizeCheckout(t, SHOP, Request(), 20, 20, 0, Fresh(ORDER, [HOLD]));
            r.Ok? && u.orders == map[ORDER := r.value] && r.value.status == Pending && r.value.store == SHOP &&
            r.value.number == FIRST_ORDER_NUMBER && r.value.deadline > 30
  {
    hide Inv, Opened, Place;
    var f := Fresh(ORDER, [HOLD]);
    RequestOpens(t);
    var fp := Opened(t, SHOP, Request(), 20).value;
    OpenedMay(t, fp);
    SaleFits(t, fp, f);
  }

  lemma OpenedMay(t: Tables, fp: Fingerprint)
    requires Open(t, map[CART := FilledCart()], map[SESSION := OpenSession()])
    requires Opened(t, SHOP, Request(), 20) == Ok(fp)
    ensures AttemptFresh(t, Request(), Fresh(ORDER, [HOLD])) && Placeable(t, SHOP, Request(), fp, 20, Fresh(ORDER, [HOLD]))
  {
    RequestOpens(t);
    LineAccepted(t.catalog, t.snapshots);
    Placement.OpenedMayClose(t, SHOP, Request(), 20);
    hide AcceptedCart, Opened, Blank, Placement.MayClose;
  }

  lemma SaleFits(t: Tables, fp: Fingerprint, f: Fresh)
    requires Open(t, map[CART := FilledCart()], map[SESSION := OpenSession()]) && f == Fresh(ORDER, [HOLD])
    requires Placeable(t, SHOP, Request(), fp, 20, f)
    ensures var (u, r) := Place(t, SHOP, Request(), fp, 20, 0, f);
            r.Ok? && u.orders == map[ORDER := r.value] && r.value.status == Pending && r.value.store == SHOP &&
            r.value.number == FIRST_ORDER_NUMBER && r.value.deadline > 30
  {
    hide Place, HoldAll, Accept, AcceptedCart, Placed, CreateFault, NewOrder, Fingerprints.FinalizeFingerprint;
    PlanInSnapshots(t, SHOP, Request());
    PlaceUnfolds(t, SHOP, Request(), fp, 20, 0, f);
    SaleAccepted(t);
    OrderFits(t, Accept(t, SHOP, Request()).value, f);
    OrdersPlaced(t, fp, PlacedStock(t, SHOP, Request(), fp, 20, 0, f), PlacedOrder(t, SHOP, Request(), fp, 20, 0, f));
  }

  lemma SaleAccepted(t: Tables)
    requires Open(t, map[CART := FilledCart()], map[SESSION := OpenSession()]) && Accept(t, SHOP, Request()).Ok?
    ensures Sells(Accept(t, SHOP, Request()).value)
  {
    LineAccepted(t.catalog, t.snapshots);
    hide AcceptedCart, AddressOk;
  }

  lemma OrderFits(t: Tables, a: Accepted, f: Fresh)
    requires Open(t, map[CART := FilledCart()], map[SESSION := OpenSession()]) && f == Fresh(ORDER, [HOLD]) && Sells(a)
    ensures var o := NewOrder(t, SHOP, Request(), a, f, 20, 20 + Confirmation(0));
            && CreateFault(t, ORDER, o).None?
            && o.status == Pending && o.store == SHOP && o.number == FIRST_ORDER_NUMBER && o.deadline > 30
  {
    NotBlank("AE");
    NotBlank("AED");
    NotBlank("lamp");
    NotBlank("L-1");
    hide Blank;
  }

  lemma OrdersPlaced(t: Tables, fp: Fingerprint, st: Stock, o: Order)
    requires Open(t, map[CART := FilledCart()], map[SESSION := OpenSession()])
    ensures Placed(t, Request(), fp, st, ORDER, o).orders == map[ORDER := o]
  {
    hide Append;
  }

  // ---- The run.

  lemma Next(t: Tables, steps: seq<Step>, s: Step, u: Tables)
    requires Possible(t, steps) && Run(t, steps) == u && Enabled(u, s)
    ensures Possible(t, steps + [s]) && Run(t, steps + [s]) == Apply(u, s)
  {
    hide Possible, Run, Apply, Enabled;
    RunAppends(t, steps, s);
  }

  /** Stock arrives, a cart is filled, a session opens. */
  lemma ShopOpens() returns (steps: seq<Step>, u: Tables)
    ensures Possible(Empty(Shelf()), steps) && u == Run(Empty(Shelf()), steps)
    ensures Open(u, map[CART := FilledCart()], map[SESSION := OpenSession()])
  {
    hide Open, Possible, Run, StockStep, CartStep, CreateCheckoutSession, Empty;
    var t := Empty(Shelf());
    steps, u := [], t;
    NoSteps(t);
    var s := OnStock(STOCK, NewSnapshot(DEPOT, SKU, 5));
    StockArrives(t);
    Next(t, steps, s, u);
    steps, u := steps + [s], Apply(u, s);
    s := OnCart(CART, NewCart(SHOP, "AE", None));
    CartOpens(u);
    Next(t, steps, s, u);
    steps, u := steps + [s], Apply(u, s);
    s := OnCart(CART, AddItem(SHOP, 80, SKU, 2));
    LineAdded(u);
    Next(t, steps, s, u);
    steps, u := steps + [s], Apply(u, s);
    s := NewSession(SESSION, SHOP, CART, None, 0, 10);
    SessionOpens(u);
    Next(t, steps, s, u);
    steps, u := steps + [s], Apply(u, s);
  }

  lemma NoSteps(t: Tables)
    ensures Possible(t, []) && Run(t, []) == t
  {
  }

  /** A run from the empty database sells: the order is placed and then confirmed. */
  lemma SaleHappens() returns (steps: seq<Step>, u: Tables)
    ensures Possible(Empty(Shelf()), steps) && u == Run(Empty(Shelf()), steps)
    ensures ORDER in u.orders && u.orders[ORDER].status == Confirmed && u.orders[ORDER].number == FIRST_ORDER_NUMBER
  {
    hide Inv, Open, Possible, Run, FinalizeCheckout, Empty, Later, ConfirmOrder, AttemptFresh;
    var t := Empty(Shelf());
    EmptyInv(Shelf());
    steps, u := ShopOpens();
    RunKeepsInv(t, steps);
    SalePlaced(u);
    var s := Finalize(SHOP, Request(), 20, 20, 0, Fresh(ORDER, [HOLD]));
    Next(t, steps, s, u);
    steps, u := steps + [s], Apply(u, s);
    RunKeepsInv(t, steps);
    s := OnOrder(ORDER, Confirm(SHOP, 30));
    ConfirmExact(u, SHOP, ORDER, 30);
    Next(t, steps, s, u);
    steps, u := steps + [s], Apply(u, s);
  }
}
