/** FinalizeCheckout as one transaction (modules/commerce/checkout_session.go:262-792). */
module Finalize {
  import opened Base
  import opened Money
  import opened Records
  import opened Inventory
  import opened Fingerprints
  import opened Tables
  import opened Checkout

  /** Trimmed blanks that the fingerprint validation does not catch. */
  predicate ItemTextOk(item: CartItem) {
    LineFits(item) && !Blank(item.currency)
  }

  predicate AddressOk(r: FinalizeRequest) {
    && !Blank(r.address.recipient) && !Blank(r.address.line1) && !Blank(r.address.city)
    && |r.address.country| == 2 && !Blank([r.address.country[0]]) && !Blank([r.address.country[1]])
    && !Blank(r.email)
  }

  /** Locks, state rules, items and fingerprint: everything before the replay branch. */
  function Opened(t: Tables, store: Id, request: FinalizeRequest, now: Time): Result<Fingerprint> {
    if store == NO_ID || request.session == NO_ID then Err(InvalidInput)
    else
      var fault := LockFault(t, store, request.session, now);
      if fault.Some? then Err(fault.value)
      else
        var s := t.sessions[request.session];
        var cart := t.carts[s.cart];
        if cart.items == [] || exists i :: 0 <= i < |cart.items| && !ItemTextOk(cart.items[i]) then Err(InvalidInput)
        else FinalizeFingerprint(request.session, s, s.cart, cart, request)
  }

  /** Replay of a finalized session: the stored order, if the request is the same. */
  function Replayed(t: Tables, store: Id, session: Id, fp: Fingerprint): Result<Order>
    requires session in t.sessions
  {
    if t.sessions[session].fingerprint != Some(fp) then Err(IdempotencyConflict)
    else if session !in t.bySession || !OrderIn(t, store, t.bySession[session]) then Err(NotFound)
    else Ok(t.orders[t.bySession[session]])
  }

  datatype Accepted = Accepted(cart: CheckedCart, choices: seq<Id>, currency: string)

  /** Revalidation and allocation of the lines of a cart. */
  function AcceptedCart(c: Catalog, snaps: map<Id, Snapshot>, store: Id, market: string, currency: string,
      items: seq<CartItem>): Result<Accepted> {
    var lines := CheckLines(c, snaps, store, market, currency, items);
    if lines.Err? then Err(lines.error)
    else
      var plan := Plan(DemandsOf(items, lines.value.lines), snaps);
      if plan.Err? then Err(plan.error) else Ok(Accepted(lines.value, plan.value, currency))
  }

  /** Revalidation of the store and of every line, then the allocation plan. */
  function Accept(t: Tables, store: Id, request: FinalizeRequest): Result<Accepted>
    requires SessionIn(t, store, request.session) && CartIn(t, store, t.sessions[request.session].cart)
  {
    var s := t.sessions[request.session];
    var cart := t.carts[s.cart];
    if !AddressOk(request) || s.digestLength != DIGEST_SIZE then Err(InvalidInput)
    else if store !in t.catalog.stores || t.catalog.stores[store].market !in t.catalog.markets then Err(NotFound)
    else if !t.catalog.stores[store].active || t.catalog.stores[store].market != cart.market then Err(ListingUnavailable)
    else
      AcceptedCart(t.catalog, t.snapshots, store, cart.market, t.catalog.markets[cart.market], cart.items)
  }

  function NewOrder(t: Tables, store: Id, request: FinalizeRequest, a: Accepted, f: Fresh, at: Time,
      deadline: Time): Order
    requires SessionIn(t, store, request.session) && CartIn(t, store, t.sessions[request.session].cart)
    requires var items := t.carts[t.sessions[request.session].cart].items;
      |items| == |a.cart.lines| == |a.choices| == |f.reservations|
    requires forall i :: 0 <= i < |a.choices| ==> a.choices[i] in t.snapshots
  {
    var s := t.sessions[request.session];
    var cart := t.carts[s.cart];
    Order(NextNumber(t, store), store, cart.market, s.customer, request.session, Pending, a.currency, s.digestLength,
          a.cart.subtotal, a.cart.subtotal, deadline, None, 1, at, at,
          NewItems(cart.items, a.cart.lines, t.snapshots, a.choices, f.reservations), request.address)
  }

  /** The checks and unique constraints of createOrderExec. */
  function CreateFault(t: Tables, id: Id, o: Order): Option<Error> {
    if id == NO_ID || o.store == NO_ID || Blank(o.market) || o.session == NO_ID || Blank(o.currency) || o.subtotal < 0 || o.total < 0 || o.deadline == 0
    then Some(InvalidInput)
    else if o.customer.None? && o.digestLength != DIGEST_SIZE then Some(InvalidInput)
    else if id in t.orders || o.session in t.bySession || (o.store, o.number) in t.byNumber then Some(Conflict)
    else if exists i :: 0 <= i < |o.items| && !ItemAccepted(o.items[i]) then Some(InvalidInput)
    else None
  }

  function ClosedSession(s: Session, request: FinalizeRequest, fp: Fingerprint): Session {
    s.(status := SessionFinalized, fingerprint := Some(fp), address := Some(request.address), email := Some(request.email))
  }

  /** Everything the transaction writes when it commits. */
  function Placed(t: Tables, request: FinalizeRequest, fp: Fingerprint, st: Stock, id: Id, o: Order): Tables
    requires request.session in t.sessions && t.sessions[request.session].cart in t.carts
  {
    var s := t.sessions[request.session];
    WithStock(t, st).(
      orders := t.orders[id := o],
      bySession := t.bySession[o.session := id],
      byNumber := t.byNumber[(o.store, o.number) := id],
      sequences := t.sequences[o.store := o.number + 1],
      timeline := Append(t.timeline, id, TimelineRow(None, Pending, Records.Checkout, o.createdAt)),
      events := Append(t.events, id, OrderEvent(OrderCreated, o.version, Pending, o.createdAt)),
      sessions := t.sessions[request.session := ClosedSession(s, request, fp)],
      carts := t.carts[s.cart := t.carts[s.cart].(status := CartCheckedOut)])
  }

  function Confirmation(duration: int): nat {
    if duration <= 0 then DEFAULT_CONFIRMATION else duration
  }

  lemma PlanInSnapshots(t: Tables, store: Id, request: FinalizeRequest)
    requires SessionIn(t, store, request.session) && CartIn(t, store, t.sessions[request.session].cart)
    requires Accept(t, store, request).Ok?
    ensures var a := Accept(t, store, request).value;
            && |a.choices| == |a.cart.lines| == |t.carts[t.sessions[request.session].cart].items|
            && forall i :: 0 <= i < |a.choices| ==> a.choices[i] in t.snapshots
  {
    var a := Accept(t, store, request).value;
    var demands := DemandsOf(t.carts[t.sessions[request.session].cart].items, a.cart.lines);
    PlanIsPlan(demands, t.snapshots);
    forall i | 0 <= i < |a.choices| ensures a.choices[i] in t.snapshots {
      assert PlannedAt(demands, t.snapshots, a.choices, i);
    }
  }

  /** The open-session half: accept, hold, create, close. at is the acceptance time. */
  function Place(t: Tables, store: Id, request: FinalizeRequest, fp: Fingerprint, at: Time, duration: int,
      f: Fresh): Outcome
    requires SessionIn(t, store, request.session) && CartIn(t, store, t.sessions[request.session].cart)
    requires |f.reservations| == |t.carts[t.sessions[request.session].cart].items|
  {
    var accepted := Accept(t, store, request);
    if accepted.Err? then (t, Err(accepted.error))
    else
      PlanInSnapshots(t, store, request);
      var a := accepted.value;
      var deadline := at + Confirmation(duration);
      var items := t.carts[t.sessions[request.session].cart].items;
      var o := NewOrder(t, store, request, a, f, at, deadline);
      var fault := CreateFault(t, f.order, o);
      if fault.Some? then (t, Err(fault.value))
      else (Placed(t, request, fp, HoldAll(StockOf(t), items, a.choices, f.reservations, deadline), f.order, o), Ok(o))
  }

  /** now is the session decision time, at the later acceptance time. */
  function FinalizeCheckout(t: Tables, store: Id, request: FinalizeRequest, now: Time, at: Time, duration: int,
      f: Fresh): Outcome
    requires SessionIn(t, store, request.session) && t.sessions[request.session].cart in t.carts ==>
      |f.reservations| == |t.carts[t.sessions[request.session].cart].items|
  {
    var fp := Opened(t, store, request, now);
    if fp.Err? then (t, Err(fp.error))
    else if t.sessions[request.session].status == SessionFinalized then (t, Replayed(t, store, request.session, fp.value))
    else Place(t, store, request, fp.value, at, duration, f)
  }
}
