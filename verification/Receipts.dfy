/** What a placed order says, field by field
    (modules/commerce/checkout_session.go:593-776). */
module Receipts {
  import opened Base
  import opened Money
  import opened Records
  import opened Inventory
  import opened Fingerprints
  import opened Tables
  import opened Checkout
  import opened Finalize
  import opened Sessions
  import opened Placement
  import opened Holding
  import opened Commands
  import opened Purchases
  import Amounts

  // ---- Lines.

  /** The order line repeats the cart line and multiplies it out. */
  ghost predicate Copies(item: OrderItem, line: CartItem) {
    && item.listing == line.listing && item.sku == line.sku && item.quantity == line.quantity
    && item.price == line.price && item.currency == line.currency
    && item.lineTotal == line.price * line.quantity
  }

  /** What the line records of the catalogue at placement. */
  ghost predicate Describes(c: Catalog, item: OrderItem) {
    && item.listing in c.listings && item.sku in c.skus && item.product in c.products
    && item.product == c.listings[item.listing].product && item.variant == c.skus[item.sku].variant
    && item.skuCode == c.skus[item.sku].code
    && item.title == (if c.products[item.product].name.Some? && !Blank(c.products[item.product].name.value)
                      then c.products[item.product].name.value else c.products[item.product].slug)
    && item.offer == c.listings[item.listing].offer
    && (item.offer.None? ==> item.supplier.None? && item.cost.None? && item.costCurrency.None?)
    && (item.offer.Some? ==>
          && item.offer.value in c.offers && c.offers[item.offer.value].price.Some?
          && item.supplier == Some(c.offers[item.offer.value].supplier)
          && item.cost == Some(c.offers[item.offer.value].price.value.amount)
          && item.costCurrency == Some(c.offers[item.offer.value].price.value.currency))
  }

  /** The line has a reservation of its own that was not there before; it holds the line's
      quantity of a snapshot of the line's SKU until the deadline, and the line names that
      snapshot's location. */
  ghost predicate Holds(t: Tables, t': Tables, item: OrderItem, deadline: Time) {
    && item.reservation !in t.reservations && item.reservation in t'.reservations
    && var r := t'.reservations[item.reservation];
    && r.quantity == item.quantity && r.status == Held && r.expiresAt == Some(deadline)
    && r.snapshot in t.snapshots && t.snapshots[r.snapshot].sku == item.sku
    && item.location == t.snapshots[r.snapshot].location
  }

  // ---- The order.

  ghost predicate Headed(t: Tables, store: Id, request: FinalizeRequest, at: Time, duration: int, o: Order)
    requires request.session in t.sessions && t.sessions[request.session].cart in t.carts
  {
    var s := t.sessions[request.session];
    var cart := t.carts[s.cart];
    && o.number == (if store in t.sequences then t.sequences[store] else 100001)
    && o.store == store && o.market == cart.market && o.customer == s.customer && o.session == request.session
    && o.status == Pending && o.version == 1 && o.reason == None && o.createdAt == o.updatedAt == at
    && o.deadline == at + (if duration <= 0 then 900 * 1_000_000 else duration)
    && cart.market in t.catalog.markets && o.currency == t.catalog.markets[cart.market]
    && o.address == request.address && o.digestLength == s.digestLength == 32
    && o.total == o.subtotal == Amounts.Total(cart.items)
  }

  /** What the transaction writes besides the stock. */
  ghost predicate Recorded(t: Tables, t': Tables, request: FinalizeRequest, id: Id, o: Order, at: Time)
    requires request.session in t.sessions && t.sessions[request.session].cart in t.carts
  {
    var s := t.sessions[request.session];
    && id !in t.orders && id !in t.timeline && id !in t.events
    && t'.orders == t.orders[id := o]
    && t'.timeline == t.timeline[id := [TimelineRow(None, Pending, Records.Checkout, at)]]
    && t'.events == t.events[id := [OrderEvent(OrderCreated, 1, Pending, at)]]
    && t'.sequences == t.sequences[o.store := o.number + 1]
    && t'.carts == t.carts[s.cart := t.carts[s.cart].(status := CartCheckedOut)]
    && t'.catalog == t.catalog && t'.revisions == t.revisions
    && request.session in t'.sessions && t'.sessions[request.session].status == SessionFinalized
    && t'.sessions == t.sessions[request.session := t'.sessions[request.session]]
    && t'.sessions[request.session].address == Some(request.address) && t'.sessions[request.session].email == Some(request.email)
    && (forall k :: k in t.reservations ==> k in t'.reservations && t'.reservations[k] == t.reservations[k])
  }

  /** One line per cart line, in cart order. */
  ghost predicate Itemized(t: Tables, t': Tables, items: seq<CartItem>, o: Order) {
    && |o.items| == |items|
    && (forall i :: 0 <= i < |items| ==> Copies(o.items[i], items[i]))
    && (forall i :: 0 <= i < |items| ==> Describes(t.catalog, o.items[i]))
    && (forall i :: 0 <= i < |items| ==> Holds(t, t', o.items[i], o.deadline))
  }

  /** The snapshot each line's reservation is on. */
  ghost function Places(res: Reservations, o: Order): seq<Id> {
    seq(|o.items|, i requires 0 <= i < |o.items| =>
      if o.items[i].reservation in res then res[o.items[i].reservation].snapshot else NO_ID)
  }

  /** Every snapshot gives exactly what the lines placed on it take, a movement row each. */
  ghost predicate Stocked(t: Tables, t': Tables, items: seq<CartItem>, o: Order) {
    && t'.snapshots.Keys == t.snapshots.Keys && |o.items| == |items|
    && forall s :: s in t.snapshots ==> Journaled(t.snapshots[s], RowsAt(t.movements, s), t'.snapshots[s], RowsAt(t'.movements, s),
                                                  QuantitiesOn(items, Places(t'.reservations, o), s))
  }

  ghost predicate Receipt(t: Tables, t': Tables, store: Id, request: FinalizeRequest, at: Time, duration: int, id: Id, o: Order) {
    && request.session in t.sessions && t.sessions[request.session].cart in t.carts
    && Headed(t, store, request, at, duration, o) && Recorded(t, t', request, id, o, at)
    && Itemized(t, t', t.carts[t.sessions[request.session].cart].items, o)
    && Stocked(t, t', t.carts[t.sessions[request.session].cart].items, o)
  }

  // ---- Why.

  lemma FactsOf(c: Catalog, store: Id, market: string, currency: string, item: CartItem)
    requires Revalidate(c, store, market, currency, item).Ok?
    ensures var f := Revalidate(c, store, market, currency, item).value;
            && item.listing in c.listings && item.sku in c.skus && f.product in c.products
            && f.product == c.listings[item.listing].product && f.variant == c.skus[item.sku].variant
            && f.skuCode == c.skus[item.sku].code && f.title == Title(c.products[f.product])
            && f.offer == c.listings[item.listing].offer
            && (f.offer.None? ==> f.supplier.None? && f.cost.None? && f.costCurrency.None?)
            && (f.offer.Some? ==>
                  && f.offer.value in c.offers && c.offers[f.offer.value].price.Some?
                  && f.supplier == Some(c.offers[f.offer.value].supplier)
                  && f.cost == Some(c.offers[f.offer.value].price.value.amount)
                  && f.costCurrency == Some(c.offers[f.offer.value].price.value.currency))
  {
  }

  lemma {:induction false} LineFactsAt(c: Catalog, snaps: map<Id, Snapshot>, store: Id, market: string,
      currency: string, items: seq<CartItem>, i: nat)
    requires i < |items| && CheckLines(c, snaps, store, market, currency, items).Ok?
    ensures Revalidate(c, store, market, currency, items[i]).Ok?
    ensures var line := CheckLines(c, snaps, store, market, currency, items).value.lines[i];
            && line.facts == Revalidate(c, store, market, currency, items[i]).value
            && line.candidates == Candidates(c, snaps, store, market, items[i].sku, line.facts.supplier)
  {
    hide Revalidate, Candidates, CheckedMultiply, CheckedAdd;
    if i < |items| - 1 {
      LineFactsAt(c, snaps, store, market, currency, items[..|items| - 1], i);
    }
  }

  lemma ItemCopies(c: Catalog, store: Id, market: string, currency: string, item: CartItem, line: CheckedLine,
      snaps: map<Id, Snapshot>, choice: Id, rid: Id)
    requires Revalidate(c, store, market, currency, item) == Ok(line.facts) && choice in snaps
    requires line.lineTotal == item.price * item.quantity
    ensures var o := NewItem(item, line, snaps, choice, rid);
            && Copies(o, item) && Describes(c, o) && o.reservation == rid && o.location == snaps[choice].location
  {
    FactsOf(c, store, market, currency, item);
    hide Revalidate;
  }

  lemma ItemHolds(t: Tables, t': Tables, st: Stock, items: seq<CartItem>, choices: seq<Id>, rids: seq<Id>, deadline: Time,
      item: OrderItem, i: nat, supplier: Option<Id>, store: Id, market: string)
    requires HoldsReady(st, items, choices, rids) && i < |items| && st == StockOf(t)
    requires t'.reservations == HoldAll(st, items, choices, rids, deadline).reservations
    requires Copies(item, items[i]) && item.reservation == rids[i] && item.location == t.snapshots[choices[i]].location
    requires choices[i] in Candidates(t.catalog, t.snapshots, store, market, items[i].sku, supplier)
    ensures Holds(t, t', item, deadline)
  {
    hide HoldAll;
    HeldRows(st, items, choices, rids, deadline);
    assert RowHeld(t'.reservations, items, choices, rids, deadline, i);
  }

  /** The choice of a line is one of its candidates. */
  lemma ChoiceIsCandidate(lines: seq<Demand>, rows: map<Id, Snapshot>, choices: seq<Id>, i: nat)
    requires IsPlan(lines, rows, choices) && i < |choices|
    ensures choices[i] in lines[i].candidates
  {
    assert PlannedAt(lines, rows, choices, i);
  }

  lemma OpenedFits(t: Tables, store: Id, request: FinalizeRequest, now: Time)
    requires Opened(t, store, request, now).Ok?
    ensures SessionIn(t, store, request.session) && CartIn(t, store, t.sessions[request.session].cart)
    ensures Amounts.AllFit(t.carts[t.sessions[request.session].cart].items)
  {
  }

  lemma AcceptSays(t: Tables, store: Id, request: FinalizeRequest)
    requires SessionIn(t, store, request.session) && CartIn(t, store, t.sessions[request.session].cart)
    requires Accept(t, store, request).Ok?
    ensures var a := Accept(t, store, request).value;
            var cart := t.carts[t.sessions[request.session].cart];
            && cart.market in t.catalog.markets && a.currency == t.catalog.markets[cart.market]
            && t.sessions[request.session].digestLength == 32
            && AcceptedCart(t.catalog, t.snapshots, store, cart.market, a.currency, cart.items) == Ok(a)
  {
    hide CheckLines, Plan, DemandsOf;
  }

  lemma CartSays(c: Catalog, snaps: map<Id, Snapshot>, store: Id, market: string, currency: string, items: seq<CartItem>, a: Accepted)
    requires AcceptedCart(c, snaps, store, market, currency, items) == Ok(a) && Amounts.AllFit(items)
    ensures |a.choices| == |a.cart.lines| == |items|
    ensures a.cart.subtotal == Amounts.Total(items)
    ensures forall i :: 0 <= i < |items| ==> a.cart.lines[i].lineTotal == items[i].price * items[i].quantity
    ensures forall i :: 0 <= i < |items| ==> Revalidate(c, store, market, currency, items[i]) == Ok(a.cart.lines[i].facts)
    ensures forall i :: 0 <= i < |items| ==>
      a.choices[i] in Candidates(c, snaps, store, market, items[i].sku, a.cart.lines[i].facts.supplier)
  {
    hide CheckLines, Plan, Candidates, Revalidate, IsPlan;
    Amounts.SubtotalExact(c, snaps, store, market, currency, items);
    PlanIsPlan(DemandsOf(items, a.cart.lines), snaps);
    forall i | 0 <= i < |items|
      ensures Revalidate(c, store, market, currency, items[i]) == Ok(a.cart.lines[i].facts)
      ensures a.choices[i] in Candidates(c, snaps, store, market, items[i].sku, a.cart.lines[i].facts.supplier)
    {
      LineFactsAt(c, snaps, store, market, currency, items, i);
      ChoiceIsCandidate(DemandsOf(items, a.cart.lines), snaps, a.choices, i);
    }
  }

  lemma HeaderSays(t: Tables, store: Id, request: FinalizeRequest, a: Accepted, f: Fresh, at: Time, duration: int)
    requires SessionIn(t, store, request.session) && CartIn(t, store, t.sessions[request.session].cart)
    requires Accept(t, store, request) == Ok(a) && Amounts.AllFit(ItemsOf(t, request.session))
    requires |a.choices| == |a.cart.lines| == |f.reservations| == |ItemsOf(t, request.session)|
    requires forall i :: 0 <= i < |a.choices| ==> a.choices[i] in t.snapshots
    ensures Headed(t, store, request, at, duration, NewOrder(t, store, request, a, f, at, at + Confirmation(duration)))
  {
    var cart := t.carts[t.sessions[request.session].cart];
    hide Accept, AcceptedCart, NewItems;
    AcceptSays(t, store, request);
    CartSays(t.catalog, t.snapshots, store, cart.market, a.currency, cart.items, a);
  }

  lemma LineSays(t: Tables, t': Tables, store: Id, market: string, items: seq<CartItem>, a: Accepted, rids: seq<Id>, deadline: Time,
      item: OrderItem, i: nat)
    requires AcceptedCart(t.catalog, t.snapshots, store, market, a.currency, items) == Ok(a) && Amounts.AllFit(items)
    requires HoldsReady(StockOf(t), items, a.choices, rids) && i < |items| && |a.cart.lines| == |items|
    requires item == NewItem(items[i], a.cart.lines[i], t.snapshots, a.choices[i], rids[i])
    requires t'.reservations == HoldAll(StockOf(t), items, a.choices, rids, deadline).reservations
    ensures Copies(item, items[i]) && Describes(t.catalog, item) && Holds(t, t', item, deadline)
  {
    hide AcceptedCart, Candidates, Revalidate, HoldAll, Copies, Describes, Holds, NewItem, Amounts.AllFit;
    CartSays(t.catalog, t.snapshots, store, market, a.currency, items, a);
    ItemCopies(t.catalog, store, market, a.currency, items[i], a.cart.lines[i], t.snapshots, a.choices[i], rids[i]);
    ItemPlain(item, items[i]);
    ItemHolds(t, t', StockOf(t), items, a.choices, rids, deadline, item, i, a.cart.lines[i].facts.supplier, store, market);
  }

  lemma ItemPlain(item: OrderItem, line: CartItem)
    requires Copies(item, line)
    ensures item.sku == line.sku && item.quantity == line.quantity
  {
  }

  lemma LinesSay(t: Tables, t': Tables, store: Id, market: string, items: seq<CartItem>, a: Accepted, rids: seq<Id>, deadline: Time, o: Order)
    requires AcceptedCart(t.catalog, t.snapshots, store, market, a.currency, items) == Ok(a) && Amounts.AllFit(items)
    requires HoldsReady(StockOf(t), items, a.choices, rids) && |a.cart.lines| == |items| && o.deadline == deadline
    requires o.items == NewItems(items, a.cart.lines, t.snapshots, a.choices, rids)
    requires t'.reservations == HoldAll(StockOf(t), items, a.choices, rids, deadline).reservations
    ensures Itemized(t, t', items, o)
  {
    hide AcceptedCart, HoldAll, Copies, Describes, Holds, NewItem, HoldsReady, Amounts.AllFit;
    forall i | 0 <= i < |items|
      ensures Copies(o.items[i], items[i]) && Describes(t.catalog, o.items[i]) && Holds(t, t', o.items[i], deadline)
    {
      LineSays(t, t', store, market, items, a, rids, deadline, o.items[i], i);
    }
  }

  lemma StockSays(t: Tables, t': Tables, st: Stock, items: seq<CartItem>, choices: seq<Id>, rids: seq<Id>, deadline: Time, o: Order)
    requires HoldsReady(StockOf(t), items, choices, rids) && st == HoldAll(StockOf(t), items, choices, rids, deadline)
    requires t'.snapshots == st.snapshots && t'.movements == st.movements && t'.reservations == st.reservations
    requires |o.items| == |items| && forall i :: 0 <= i < |items| ==> o.items[i].reservation == rids[i]
    ensures Stocked(t, t', items, o)
  {
    hide HoldAll, Journaled, QuantitiesOn;
    HeldRows(StockOf(t), items, choices, rids, deadline);
    forall i | 0 <= i < |items| ensures Places(st.reservations, o)[i] == choices[i] {
      assert RowHeld(st.reservations, items, choices, rids, deadline, i);
    }
    assert Places(st.reservations, o) == choices;
    forall s | s in t.snapshots { HeldJournal(StockOf(t), items, choices, rids, deadline, s); }
  }

  lemma OrderingStock(t: Tables, t': Tables, st: Stock, store: Id, request: FinalizeRequest, a: Accepted, f: Fresh, at: Time,
      duration: int, o: Order)
    requires Ordering(t, store, request, a, f, at, duration, o)
    requires HoldsReady(StockOf(t), ItemsOf(t, request.session), a.choices, f.reservations)
    requires st == HoldAll(StockOf(t), ItemsOf(t, request.session), a.choices, f.reservations, o.deadline)
    requires t'.snapshots == st.snapshots && t'.movements == st.movements && t'.reservations == st.reservations
    ensures Stocked(t, t', ItemsOf(t, request.session), o)
  {
    hide Accept, HoldAll, Stocked, HoldsReady, FreshFor, Amounts.AllFit;
    StockSays(t, t', st, ItemsOf(t, request.session), a.choices, f.reservations, o.deadline, o);
  }

  lemma WritesSay(t: Tables, request: FinalizeRequest, fp: Fingerprint, st: Stock, f: Fresh, o: Order, at: Time)
    requires request.session in t.sessions && t.sessions[request.session].cart in t.carts
    requires f.order !in t.orders && f.order !in t.timeline && f.order !in t.events
    requires o.createdAt == at && o.version == 1
    requires forall k :: k in t.reservations ==> k in st.reservations && st.reservations[k] == t.reservations[k]
    ensures var t' := Placed(t, request, fp, st, f.order, o);
            && Recorded(t, t', request, f.order, o, at)
            && t'.snapshots == st.snapshots && t'.movements == st.movements && t'.reservations == st.reservations
  {
    assert [] + [TimelineRow(None, Pending, Records.Checkout, at)] == [TimelineRow(None, Pending, Records.Checkout, at)];
    assert [] + [OrderEvent(OrderCreated, 1, Pending, at)] == [OrderEvent(OrderCreated, 1, Pending, at)];
  }

  /** The attempt got as far as its order row. */
  ghost predicate Ordering(t: Tables, store: Id, request: FinalizeRequest, a: Accepted, f: Fresh, at: Time, duration: int, o: Order) {
    && SessionIn(t, store, request.session) && CartIn(t, store, t.sessions[request.session].cart)
    && Accept(t, store, request) == Ok(a) && Amounts.AllFit(ItemsOf(t, request.session))
    && |a.choices| == |a.cart.lines| == |f.reservations| == |ItemsOf(t, request.session)|
    && (forall i :: 0 <= i < |a.choices| ==> a.choices[i] in t.snapshots)
    && FreshFor(t, f, |ItemsOf(t, request.session)|)
    && o == NewOrder(t, store, request, a, f, at, at + Confirmation(duration))
  }

  lemma OrderingHeader(t: Tables, store: Id, request: FinalizeRequest, a: Accepted, f: Fresh, at: Time, duration: int, o: Order)
    requires Ordering(t, store, request, a, f, at, duration, o)
    ensures Headed(t, store, request, at, duration, o)
    ensures o.createdAt == at && o.version == 1 && o.deadline == at + Confirmation(duration)
  {
    hide Accept, Headed, NewItems, FreshFor, Amounts.AllFit;
    HeaderSays(t, store, request, a, f, at, duration);
    HeaderPlain(t, store, request, at, duration, o);
  }

  lemma OrderingHolds(t: Tables, store: Id, request: FinalizeRequest, a: Accepted, f: Fresh, at: Time, duration: int, o: Order)
    requires Ordering(t, store, request, a, f, at, duration, o)
    ensures HoldsReady(StockOf(t), ItemsOf(t, request.session), a.choices, f.reservations)
    ensures f.order !in t.orders && f.order !in t.timeline && f.order !in t.events
  {
    hide Accept, NewOrder, Amounts.AllFit;
    ReadyToHold(t, a, f, ItemsOf(t, request.session));
  }

  lemma OrderingLines(t: Tables, t': Tables, store: Id, request: FinalizeRequest, a: Accepted, f: Fresh, at: Time, duration: int, o: Order)
    requires Ordering(t, store, request, a, f, at, duration, o)
    requires HoldsReady(StockOf(t), ItemsOf(t, request.session), a.choices, f.reservations)
    requires t'.reservations == HoldAll(StockOf(t), ItemsOf(t, request.session), a.choices, f.reservations, o.deadline).reservations
    ensures Itemized(t, t', ItemsOf(t, request.session), o)
  {
    hide Accept, HoldAll, Itemized, HoldsReady, FreshFor, Amounts.AllFit, NewItems, AcceptedCart;
    AcceptSays(t, store, request);
    LinesSay(t, t', store, t.carts[t.sessions[request.session].cart].market, ItemsOf(t, request.session), a, f.reservations, o.deadline, o);
  }

  lemma ReceiptOf(t: Tables, t': Tables, st: Stock, store: Id, request: FinalizeRequest, fp: Fingerprint, a: Accepted, f: Fresh,
      at: Time, duration: int, o: Order)
    requires Ordering(t, store, request, a, f, at, duration, o)
    requires request.session in t.sessions && t.sessions[request.session].cart in t.carts
    requires HoldsReady(StockOf(t), ItemsOf(t, request.session), a.choices, f.reservations)
    requires st == HoldAll(StockOf(t), ItemsOf(t, request.session), a.choices, f.reservations, o.deadline)
    requires t' == Placed(t, request, fp, st, f.order, o)
    ensures Receipt(t, t', store, request, at, duration, f.order, o)
  {
    hide Ordering, Placed, HoldAll, Headed, Recorded, Itemized, Stocked, HoldsReady, RowHeld;
    OrderingHeader(t, store, request, a, f, at, duration, o);
    OrderingHolds(t, store, request, a, f, at, duration, o);
    HeldRows(StockOf(t), ItemsOf(t, request.session), a.choices, f.reservations, o.deadline);
    WritesSay(t, request, fp, st, f, o, at);
    OrderingLines(t, t', store, request, a, f, at, duration, o);
    OrderingStock(t, t', st, store, request, a, f, at, duration, o);
  }

  ghost predicate Placing(t: Tables, store: Id, request: FinalizeRequest, f: Fresh) {
    && SessionIn(t, store, request.session) && CartIn(t, store, t.sessions[request.session].cart)
    && Amounts.AllFit(ItemsOf(t, request.session)) && FreshFor(t, f, |ItemsOf(t, request.session)|)
  }

  /** A placement that goes through is one of an order row that passed its checks. */
  lemma PlacedOrdering(t: Tables, store: Id, request: FinalizeRequest, fp: Fingerprint, at: Time, duration: int,
      f: Fresh) returns (a: Accepted, o: Order)
    requires Placing(t, store, request, f) && Place(t, store, request, fp, at, duration, f).1.Ok?
    ensures Ordering(t, store, request, a, f, at, duration, o)
    ensures |f.reservations| == |ItemsOf(t, request.session)| == |a.choices| && (forall i :: 0 <= i < |a.choices| ==> a.choices[i] in t.snapshots)
    ensures Place(t, store, request, fp, at, duration, f) ==
            (Placed(t, request, fp, HoldAll(StockOf(t), ItemsOf(t, request.session), a.choices, f.reservations, at + Confirmation(duration)), f.order, o), Ok(o))
  {
    hide Accept, NewOrder, Placed, HoldAll, CreateFault, Place, Amounts.AllFit;
    PlaceAccepts(t, store, request, fp, at, duration, f);
    PlanInSnapshots(t, store, request);
    a := Accept(t, store, request).value;
    PlaceIs(t, store, request, fp, at, duration, f, a);
    o := NewOrder(t, store, request, a, f, at, at + Confirmation(duration));
  }

  lemma PlaceSays(t: Tables, store: Id, request: FinalizeRequest, fp: Fingerprint, at: Time, duration: int, f: Fresh)
    requires Placing(t, store, request, f) && Place(t, store, request, fp, at, duration, f).1.Ok?
    ensures var (t', r) := Place(t, store, request, fp, at, duration, f);
            Receipt(t, t', store, request, at, duration, f.order, r.value)
  {
    hide Ordering, Placed, HoldAll, Receipt, Place, Headed, HoldsReady, FreshFor, Amounts.AllFit;
    var a, o := PlacedOrdering(t, store, request, fp, at, duration, f);
    OrderingHeader(t, store, request, a, f, at, duration, o);
    OrderingHolds(t, store, request, a, f, at, duration, o);
    var (t', r) := Place(t, store, request, fp, at, duration, f);
    ReceiptOf(t, t', HoldAll(StockOf(t), ItemsOf(t, request.session), a.choices, f.reservations, at + Confirmation(duration)),
              store, request, fp, a, f, at, duration, o);
  }

  /** A finalize that succeeds on a session not finalized before places an order that says
      what the cart, the session, the request and the catalogue said. */
  lemma PlacedOrderSays(t: Tables, store: Id, request: FinalizeRequest, now: Time, at: Time, duration: int, f: Fresh)
    requires AttemptFresh(t, request, f) && !Finalized(t, request.session)
    requires FinalizeCheckout(t, store, request, now, at, duration, f).1.Ok?
    ensures var (t', r) := FinalizeCheckout(t, store, request, now, at, duration, f);
            Receipt(t, t', store, request, at, duration, f.order, r.value)
  {
    var fp := Opened(t, store, request, now).value;
    OpenedFits(t, store, request, now);
    hide Opened, Receipt, FreshFor, Place, Amounts.AllFit;
    PlaceSays(t, store, request, fp, at, duration, f);
  }

  lemma PlaceAccepts(t: Tables, store: Id, request: FinalizeRequest, fp: Fingerprint, at: Time, duration: int, f: Fresh)
    requires SessionIn(t, store, request.session) && CartIn(t, store, t.sessions[request.session].cart)
    requires |f.reservations| == |t.carts[t.sessions[request.session].cart].items|
    requires Place(t, store, request, fp, at, duration, f).1.Ok?
    ensures Accept(t, store, request).Ok?
  {
    hide Accept;
  }

  lemma HeaderPlain(t: Tables, store: Id, request: FinalizeRequest, at: Time, duration: int, o: Order)
    requires request.session in t.sessions && t.sessions[request.session].cart in t.carts
    requires Headed(t, store, request, at, duration, o)
    ensures o.createdAt == at && o.version == 1 && o.deadline == at + Confirmation(duration)
  {
  }

  lemma ReadyToHold(t: Tables, a: Accepted, f: Fresh, items: seq<CartItem>)
    requires FreshFor(t, f, |items|) && |a.choices| == |items|
    requires forall i :: 0 <= i < |a.choices| ==> a.choices[i] in t.snapshots
    ensures HoldsReady(StockOf(t), items, a.choices, f.reservations)
    ensures f.order !in t.orders && f.order !in t.timeline && f.order !in t.events
  {
  }
}
