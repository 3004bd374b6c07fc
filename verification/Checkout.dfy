/** Carts, checkout sessions and the finalize transaction
    (modules/commerce/customer_cart.go, modules/commerce/checkout_session.go). */
module Checkout {
  import opened Base
  import opened Money
  import opened Records
  import opened Inventory
  import opened Fingerprints
  import opened Tables
  import Catalogue

  const DIGEST_SIZE: nat := 32
  const FIRST_ORDER_NUMBER: nat := 100001
  const MAX_LINE_QUANTITY: int := 10000
  const SECOND: nat := 1_000_000
  const DEFAULT_SESSION_LIFETIME: int := 1800 * SECOND
  const DEFAULT_CONFIRMATION: nat := 900 * SECOND

  // ---- Carts.

  predicate CustomerHasActiveCart(carts: map<Id, Cart>, store: Id, customer: Option<Id>) {
    customer.Some? && exists k :: k in carts && carts[k].store == store && carts[k].customer == customer && carts[k].status == CartActive
  }

  function CreateCart(t: Tables, id: Id, store: Id, market: string, customer: Option<Id>): (Tables, Result<Cart>) {
    if store == NO_ID || market == "" then (t, Err(InvalidInput))
    else if id in t.carts || CustomerHasActiveCart(t.carts, store, customer) then (t, Err(Conflict))
    else if store !in t.catalog.stores || t.catalog.stores[store].market != market then (t, Err(InvalidInput))
    else
      var cart := Cart(store, market, customer, CartActive, []);
      (t.(carts := t.carts[id := cart]), Ok(cart))
  }

  /** The cart a bearer token names, inside the store. */
  predicate CartIn(t: Tables, store: Id, id: Id) {
    id in t.carts && t.carts[id].store == store
  }

  function CanonicalListing(c: Catalog, store: Id, market: string, product: Id): Option<Id> {
    var all := set id | id in c.listings && Catalogue.Eligible(c, store, market, product, id);
    if all == {} then None
    else
      assert exists id :: id in all && forall o :: o in all && o != id ==> Catalogue.Newer(c, id, o) by {
        var w := Catalogue.NewestOf(c, all);
      }
      var id :| id in all && forall o :: o in all && o != id ==> Catalogue.Newer(c, id, o);
      Some(id)
  }

  lemma CanonicalListingFound(c: Catalog, store: Id, market: string, product: Id)
    ensures var r := CanonicalListing(c, store, market, product);
      r.Some? ==> Catalogue.Canonical(c, store, market, product, r.value)
    ensures CanonicalListing(c, store, market, product).None? ==> forall id: Id :: !Catalogue.Eligible(c, store, market, product, id)
  {
    var all := set id | id in c.listings && Catalogue.Eligible(c, store, market, product, id);
    forall id: Id | Catalogue.Eligible(c, store, market, product, id) ensures id in all { }
  }

  /** The computed listing is the canonical one, and none exactly when none is eligible. */
  lemma CanonicalListingExact(c: Catalog, store: Id, market: string, product: Id, id: Id)
    ensures CanonicalListing(c, store, market, product) == Some(id) <==> Catalogue.Canonical(c, store, market, product, id)
  {
    CanonicalListingFound(c, store, market, product);
    var r := CanonicalListing(c, store, market, product);
    if r.Some? && Catalogue.Canonical(c, store, market, product, id) {
      Catalogue.CanonicalUnique(c, store, market, product, r.value, id);
    }
  }

  /** resolveCartListing: the SKU and its variant are active and the product has a
      canonical listing in the cart's store and market. */
  function ResolveListing(c: Catalog, store: Id, market: string, sku: Id): Result<Id> {
    if sku in c.skus && c.skus[sku].active && c.skus[sku].variant in c.variants && c.variants[c.skus[sku].variant].active then
      var listing := CanonicalListing(c, store, market, c.variants[c.skus[sku].variant].product);
      if listing.None? then Err(NotFound)
      else if c.listings[listing.value].price.value.currency != c.markets[market] then Err(MarketMismatch)
      else Ok(listing.value)
    else Err(NotFound)
  }

  lemma ListingResolved(c: Catalog, store: Id, market: string, sku: Id)
    requires ResolveListing(c, store, market, sku).Ok?
    ensures var l := ResolveListing(c, store, market, sku).value;
            l in c.listings && c.listings[l].price.Some?
  {
    CanonicalListingFound(c, store, market, c.variants[c.skus[sku].variant].product);
  }

  function FindItem(items: seq<CartItem>, listing: Id, sku: Id): Option<nat> {
    if items == [] then None
    else if items[0].listing == listing && items[0].sku == sku then Some(0)
    else
      var rest := FindItem(items[1..], listing, sku);
      if rest.Some? then Some(rest.value + 1) else None
  }

  /** Position of a new row in (listing, sku) order. */
  function InsertItem(items: seq<CartItem>, item: CartItem): seq<CartItem> {
    if items != [] && (items[0].listing < item.listing || (items[0].listing == item.listing && items[0].sku < item.sku))
    then [items[0]] + InsertItem(items[1..], item)
    else [item] + items
  }

  lemma {:induction false} FindItemBound(items: seq<CartItem>, listing: Id, sku: Id)
    ensures var r := FindItem(items, listing, sku);
      r.Some? ==> r.value < |items| && items[r.value].listing == listing && items[r.value].sku == sku
    ensures FindItem(items, listing, sku).None? ==> forall i :: 0 <= i < |items| ==> items[i].listing != listing || items[i].sku != sku
  {
    if items != [] && !(items[0].listing == listing && items[0].sku == sku) {
      FindItemBound(items[1..], listing, sku);
      assert forall i :: 1 <= i < |items| ==> items[i] == items[1..][i - 1];
    }
  }

  function WithItems(t: Tables, cart: Id, items: seq<CartItem>): Tables
    requires cart in t.carts
  {
    t.(carts := t.carts[cart := t.carts[cart].(items := items)])
  }

  function AddCartItem(t: Tables, store: Id, cart: Id, itemId: Id, sku: Id, quantity: int): (Tables, Result<Cart>) {
    if store == NO_ID || cart == NO_ID || sku == NO_ID || quantity <= 0 || quantity > MAX_LINE_QUANTITY then (t, Err(InvalidInput))
    else if !CartIn(t, store, cart) then (t, Err(NotFound))
    else if t.carts[cart].status != CartActive then (t, Err(CartExpired))
    else
      var c := t.carts[cart];
      var listing := ResolveListing(t.catalog, store, c.market, sku);
      if listing.Err? then (t, Err(listing.error))
      else
        var price := t.catalog.listings[listing.value].price.value;
        var found := FindItem(c.items, listing.value, sku);
        FindItemBound(c.items, listing.value, sku);
        if found.Some? && c.items[found.value].quantity + quantity > MAX_LINE_QUANTITY then (t, Err(InvalidInput))
        else if found.Some? && c.items[found.value].quantity + quantity <= 0 then (t, Err(InvalidInput))
        else
          var items :=
            if found.Some? then
              c.items[found.value := c.items[found.value].(
                quantity := c.items[found.value].quantity + quantity, price := price.amount, currency := price.currency)]
            else InsertItem(c.items, CartItem(itemId, listing.value, sku, quantity, price.amount, price.currency));
          var t' := WithItems(t, cart, items);
          (t', Ok(t'.carts[cart]))
  }

  function Requantified(items: seq<CartItem>, item: Id, quantity: Int64): seq<CartItem> {
    seq(|items|, i requires 0 <= i < |items| => if items[i].id == item then items[i].(quantity := quantity) else items[i])
  }

  function Without(items: seq<CartItem>, item: Id): seq<CartItem> {
    if items == [] then []
    else if items[0].id == item then Without(items[1..], item)
    else [items[0]] + Without(items[1..], item)
  }

  datatype CartEdit = SetQuantity(item: Id, quantity: int) | RemoveItem(item: Id)

  function EditedItems(items: seq<CartItem>, edit: CartEdit): seq<CartItem>
    requires edit.SetQuantity? ==> 0 < edit.quantity <= MAX_LINE_QUANTITY
  {
    match edit
    case SetQuantity(item, q) => Requantified(items, item, q)
    case RemoveItem(item) => Without(items, item)
  }

  /** UpdateCartItemQuantity and RemoveCartItem, both through mutateCartItem. */
  function EditCart(t: Tables, store: Id, cart: Id, edit: CartEdit): (Tables, Result<Cart>) {
    if edit.item == NO_ID || (edit.SetQuantity? && (edit.quantity <= 0 || edit.quantity > MAX_LINE_QUANTITY)) then (t, Err(InvalidInput))
    else if !CartIn(t, store, cart) then (t, Err(NotFound))
    else if t.carts[cart].status != CartActive then (t, Err(CartExpired))
    else
      var t' := WithItems(t, cart, EditedItems(t.carts[cart].items, edit));
      (t', Ok(t'.carts[cart]))
  }

  // ---- Sessions.

  function CreateCheckoutSession(t: Tables, id: Id, store: Id, cart: Id, customer: Option<Id>, lifetime: int, now: Time)
    : (Tables, Result<Session>)
  {
    var life := if lifetime == 0 then DEFAULT_SESSION_LIFETIME else lifetime;
    if store == NO_ID || cart == NO_ID || life < SECOND then (t, Err(InvalidInput))
    else if !CartIn(t, store, cart) then (t, Err(NotFound))
    else if t.carts[cart].status != CartActive then (t, Err(CartExpired))
    else if customer.Some? && t.carts[cart].customer != customer then (t, Err(Conflict))
    else if id in t.sessions then (t, Err(Conflict))
    else
      var s := Session(store, cart, customer, SessionOpen, now + life / SECOND * SECOND, None, None, None, DIGEST_SIZE);
      (t.(sessions := t.sessions[id := s]), Ok(s))
  }

  /** The session and cart state rules shared by evaluate and finalize. */
  function StateFault(s: Session, c: Cart, now: Time): Option<Error> {
    if s.status == SessionFinalized && c.status != CartCheckedOut then Some(CheckoutCartInvariant)
    else if s.status == SessionOpen && c.status != CartActive then Some(Conflict)
    else if s.status == SessionExpired || (s.status == SessionOpen && s.expiresAt <= now) then Some(CheckoutExpired)
    else None
  }

  predicate SessionIn(t: Tables, store: Id, id: Id) {
    id in t.sessions && t.sessions[id].store == store
  }

  /** Lock the session, then its cart, then apply the state rules. */
  function LockFault(t: Tables, store: Id, session: Id, now: Time): Option<Error> {
    if !SessionIn(t, store, session) then Some(NotFound)
    else if !CartIn(t, store, t.sessions[session].cart) then Some(NotFound)
    else StateFault(t.sessions[session], t.carts[t.sessions[session].cart], now)
  }

  datatype Decision = Decision(session: Id, status: SessionStatus, fingerprint: Fingerprint, replay: bool)

  function EvaluateCheckoutSession(t: Tables, store: Id, request: FinalizeRequest, now: Time): Result<Decision> {
    if store == NO_ID || request.session == NO_ID then Err(InvalidInput)
    else
      var fault := LockFault(t, store, request.session, now);
      if fault.Some? then Err(fault.value)
      else
        var s := t.sessions[request.session];
        var fp := FinalizeFingerprint(request.session, s, s.cart, t.carts[s.cart], request);
        if s.digestLength != DIGEST_SIZE then Err(InvalidInput)
        else if fp.Err? then Err(fp.error)
        else if s.status == SessionFinalized && s.fingerprint != Some(fp.value) then Err(IdempotencyConflict)
        else Ok(Decision(request.session, s.status, fp.value, s.status == SessionFinalized))
  }

  // ---- Commercial revalidation of one line.

  datatype LineFacts = LineFacts(
    product: Id, variant: Id, title: string, skuCode: string, offer: Option<Id>, supplier: Option<Id>,
    cost: Option<Int64>, costCurrency: Option<string>)

  function ListingFault(c: Catalog, store: Id, market: string, currency: string, item: CartItem): Option<Error> {
    if item.listing !in c.listings || c.listings[item.listing].store != store || c.listings[item.listing].price.None? then Some(ListingUnavailable)
    else
      var l := c.listings[item.listing];
      if !l.active || l.market != market then Some(ListingUnavailable)
      else if l.price.value.amount != item.price || l.price.value.currency != item.currency then Some(PriceChanged)
      else if l.price.value.currency != currency then Some(MarketMismatch)
      else if l.product !in c.products || !c.products[l.product].active then Some(ListingUnavailable)
      else if item.sku !in c.skus || c.skus[item.sku].variant !in c.variants then Some(ListingUnavailable)
      else
        var v := c.variants[c.skus[item.sku].variant];
        if !v.active || v.product != l.product || !c.skus[item.sku].active then Some(ListingUnavailable) else None
  }

  function OfferFault(c: Catalog, market: string, currency: string, offer: Id, product: Id): Option<Error> {
    if offer !in c.offers || !Catalogue.OfferCarries(c, c.offers[offer], product) then Some(ListingUnavailable)
    else
      var o := c.offers[offer];
      if !o.active || o.market != market || o.price.None? then Some(ListingUnavailable)
      else if o.price.value.currency != currency then Some(MarketMismatch)
      else if o.available == Some(false) then Some(ListingUnavailable)
      else None
  }

  function Title(p: Product): string {
    if p.name.Some? && !Blank(p.name.value) then p.name.value else p.slug
  }

  function Revalidate(c: Catalog, store: Id, market: string, currency: string, item: CartItem): Result<LineFacts> {
    var fault := ListingFault(c, store, market, currency, item);
    if fault.Some? then Err(fault.value)
    else
      var l := c.listings[item.listing];
      var k := c.skus[item.sku];
      var title := Title(c.products[l.product]);
      if l.offer.None? then
        Ok(LineFacts(l.product, k.variant, title, k.code, None, None, None, None))
      else
        var bad := OfferFault(c, market, currency, l.offer.value, l.product);
        if bad.Some? then Err(bad.value)
        else
          var o := c.offers[l.offer.value];
          Ok(LineFacts(l.product, k.variant, title, k.code, l.offer, Some(o.supplier), Some(o.price.value.amount), Some(o.price.value.currency)))
  }

  // ---- Candidate stock of one line.

  predicate SourceMatches(loc: Location, store: Id, supplier: Option<Id>) {
    if supplier.Some? then loc.store.None? && loc.supplier == supplier
    else loc.store == Some(store) && loc.supplier.None?
  }

  /** The filter over locked snapshots. */
  predicate IsCandidate(c: Catalog, store: Id, market: string, sku: Id, supplier: Option<Id>, s: Snapshot) {
    && s.sku == sku && s.location in c.locations
    && c.locations[s.location].active && c.locations[s.location].market == market
    && SourceMatches(c.locations[s.location], store, supplier)
  }

  function Candidates(c: Catalog, snaps: map<Id, Snapshot>, store: Id, market: string, sku: Id,
      supplier: Option<Id>): set<Id> {
    set id | id in snaps && IsCandidate(c, store, market, sku, supplier, snaps[id])
  }

  /** The preliminary discovery join that decides which rows get locked. */
  predicate Discovered(c: Catalog, market: string, item: CartItem, s: Snapshot) {
    && item.listing in c.listings && s.sku == item.sku && s.location in c.locations
    && c.locations[s.location].active && c.locations[s.location].market == market
    && Catalogue.SameSource(c, c.listings[item.listing], c.locations[s.location])
  }

  function DiscoveredFor(c: Catalog, snaps: map<Id, Snapshot>, market: string, items: seq<CartItem>): set<Id> {
    set i, id | 0 <= i < |items| && id in snaps && Discovered(c, market, items[i], snaps[id]) :: id
  }

  /** Every candidate of a revalidated line was discovered, hence locked, beforehand. */
  lemma CandidatesWereDiscovered(
    c: Catalog, snaps: map<Id, Snapshot>, store: Id, market: string, currency: string, items: seq<CartItem>, i: nat)
    requires i < |items| && Revalidate(c, store, market, currency, items[i]).Ok?
    ensures Candidates(c, snaps, store, market, items[i].sku, Revalidate(c, store, market, currency, items[i]).value.supplier)
            <= DiscoveredFor(c, snaps, market, items)
  {
    var supplier := Revalidate(c, store, market, currency, items[i]).value.supplier;
    forall id | id in Candidates(c, snaps, store, market, items[i].sku, supplier)
      ensures id in DiscoveredFor(c, snaps, market, items)
    {
      assert Discovered(c, market, items[i], snaps[id]);
    }
  }

  // ---- The lines of a cart: facts, demand and money.

  datatype CheckedLine = CheckedLine(facts: LineFacts, candidates: set<Id>, lineTotal: Int64)

  datatype CheckedCart = CheckedCart(lines: seq<CheckedLine>, subtotal: Int64)

  function CheckLine(
    c: Catalog, snaps: map<Id, Snapshot>, store: Id, market: string, currency: string, item: CartItem, so: CheckedCart)
    : Result<CheckedCart>
  {
    var facts := Revalidate(c, store, market, currency, item);
    if facts.Err? then Err(facts.error)
    else
      var cands := Candidates(c, snaps, store, market, item.sku, facts.value.supplier);
      if cands == {} then Err(InsufficientInventory)
      else
        var total := CheckedMultiply(item.price, item.quantity);
        if total.Err? || total.value < 0 then Err(InvalidInput)
        else
          var sum := CheckedAdd(so.subtotal, total.value);
          if sum.Err? || sum.value < 0 then Err(InvalidInput)
          else Ok(CheckedCart(so.lines + [CheckedLine(facts.value, cands, total.value)], sum.value))
  }

  function CheckLines(
    c: Catalog, snaps: map<Id, Snapshot>, store: Id, market: string, currency: string, items: seq<CartItem>): (r: Result<CheckedCart>)
    ensures r.Ok? ==> |r.value.lines| == |items|
  {
    if items == [] then Ok(CheckedCart([], 0))
    else
      var before := CheckLines(c, snaps, store, market, currency, items[..|items| - 1]);
      if before.Err? then before else CheckLine(c, snaps, store, market, currency, items[|items| - 1], before.value)
  }

  function DemandsOf(items: seq<CartItem>, lines: seq<CheckedLine>): seq<Demand>
    requires |items| == |lines|
  {
    seq(|items|, i requires 0 <= i < |items| => Demand(lines[i].candidates, items[i].quantity))
  }

  // ---- Holding the planned stock.

  datatype Stock = Stock(snapshots: map<Id, Snapshot>, reservations: Reservations, movements: map<Id, seq<Movement>>)

  function StockOf(t: Tables): Stock {
    Stock(t.snapshots, t.reservations, t.movements)
  }

  function WithStock(t: Tables, st: Stock): Tables {
    t.(snapshots := st.snapshots, reservations := st.reservations, movements := st.movements)
  }

  /** HoldReservation on one snapshot. */
  function HoldFault(st: Stock, snapshot: Id, q: int, token: Id, deadline: Time, now: Time): Option<Error> {
    if snapshot == NO_ID || q <= 0 || token == NO_ID || deadline == 0 || now == 0 || deadline <= now then Some(InvalidInput)
    else if snapshot !in st.snapshots then Some(NotFound)
    else if Available(st.snapshots[snapshot]) < q then Some(InsufficientInventory)
    else None
  }

  function Hold(st: Stock, snapshot: Id, q: int, reservation: Id, deadline: Time): Stock
    requires snapshot in st.snapshots
  {
    var s := ReservedRow(st.snapshots[snapshot], q);
    Stock(st.snapshots[snapshot := s],
          st.reservations[reservation := Reservation(snapshot, q, Held, Some(deadline))],
          Append(st.movements, snapshot, Movement(ReservationHeld, 0, s.onHand, s.reserved)))
  }

  /** The holds of the first n lines, in line order. */
  function HoldAll(st: Stock, items: seq<CartItem>, choices: seq<Id>, rids: seq<Id>, deadline: Time): (r: Stock)
    requires |items| == |choices| == |rids|
    requires forall i :: 0 <= i < |choices| ==> choices[i] in st.snapshots
    ensures r.snapshots.Keys == st.snapshots.Keys
  {
    if items == [] then st
    else
      var n := |items| - 1;
      Hold(HoldAll(st, items[..n], choices[..n], rids[..n], deadline), choices[n], items[n].quantity, rids[n], deadline)
  }

  // ---- The order row.

  function NewItem(item: CartItem, line: CheckedLine, snaps: map<Id, Snapshot>, choice: Id, rid: Id): OrderItem
    requires choice in snaps
  {
    OrderItem(item.listing, line.facts.product, line.facts.variant, item.sku, line.facts.offer, line.facts.supplier,
              snaps[choice].location, rid, line.facts.title, line.facts.skuCode, item.price, item.currency,
              item.quantity, line.lineTotal, line.facts.cost, line.facts.costCurrency)
  }

  function NewItems(items: seq<CartItem>, lines: seq<CheckedLine>, snaps: map<Id, Snapshot>, choices: seq<Id>,
      rids: seq<Id>): seq<OrderItem>
    requires |items| == |lines| == |choices| == |rids|
    requires forall i :: 0 <= i < |choices| ==> choices[i] in snaps
  {
    seq(|items|, i requires 0 <= i < |items| => NewItem(items[i], lines[i], snaps, choices[i], rids[i]))
  }

  /** The item checks of createOrderExec. */
  predicate ItemAccepted(item: OrderItem) {
    && item.quantity > 0 && item.price >= 0 && item.lineTotal >= 0
    && item.location != NO_ID && item.reservation != NO_ID && !Blank(item.title) && !Blank(item.skuCode)
    && ((item.offer.Some? && item.supplier.Some? && item.cost.Some? && item.costCurrency.Some?
         && item.cost.value >= 0 && item.costCurrency.value == item.currency)
        || (item.offer.None? && item.supplier.None? && item.cost.None? && item.costCurrency.None?))
  }

  datatype Fresh = Fresh(order: Id, reservations: seq<Id>)

  /** UUIDs drawn for the attempt collide with nothing stored. */
  ghost predicate FreshFor(t: Tables, f: Fresh, items: nat) {
    && f.order != NO_ID && f.order !in t.orders && f.order !in t.timeline && f.order !in t.events
    && |f.reservations| == items && Distinct(f.reservations)
    && forall i :: 0 <= i < items ==> f.reservations[i] != NO_ID && f.reservations[i] !in t.reservations
  }

  function NextOf(sequences: map<Id, nat>, store: Id): nat {
    if store in sequences then sequences[store] else FIRST_ORDER_NUMBER
  }

  function NextNumber(t: Tables, store: Id): nat {
    NextOf(t.sequences, store)
  }
}
