/** What opening and evaluating a checkout session does, and which requests the finalize
    fingerprint tells apart (modules/commerce/checkout_session.go:83-226). */
module SessionEffects {
  import opened Base
  import opened Records
  import opened Fingerprints
  import opened Tables
  import opened Checkout
  import opened Finalize
  import opened Sessions
  import opened Carts
  import opened CartEffects

  // ---- Opening.

  ghost predicate MayStart(t: Tables, id: Id, store: Id, cart: Id, customer: Option<Id>, lifetime: int) {
    && store != NO_ID && cart != NO_ID && (lifetime == 0 || lifetime >= 1_000_000)
    && MayEdit(t, store, cart) && (customer.Some? ==> t.carts[cart].customer == customer) && id !in t.sessions
  }

  /** Half an hour unless a lifetime is asked for; that one counts in whole seconds. */
  ghost predicate Lasts(now: Time, expiresAt: Time, lifetime: int) {
    && (lifetime == 0 ==> expiresAt == now + 1_800_000_000)
    && (lifetime != 0 ==> now < expiresAt && (expiresAt - now) % 1_000_000 == 0 &&
                          expiresAt - now <= lifetime < expiresAt - now + 1_000_000)
  }

  lemma StartExact(t: Tables, id: Id, store: Id, cart: Id, customer: Option<Id>, lifetime: int, now: Time)
    ensures CreateCheckoutSession(t, id, store, cart, customer, lifetime, now).1.Ok? <==>
      MayStart(t, id, store, cart, customer, lifetime)
    ensures var (t', r) := CreateCheckoutSession(t, id, store, cart, customer, lifetime, now);
      && (r.Err? ==> t' == t)
      && (r.Ok? ==> t' == t.(sessions := t.sessions[id := r.value]))
      && (r.Ok? ==> r.value.store == store && r.value.cart == cart && r.value.customer == customer)
      && (r.Ok? ==> r.value.status == SessionOpen && r.value.digestLength == 32 && Lasts(now, r.value.expiresAt, lifetime))
      && (r.Ok? ==> r.value.fingerprint.None? && r.value.address.None? && r.value.email.None?)
  {
  }

  // ---- What a fingerprint tells.

  predicate SameLines(a: seq<CartItem>, b: seq<CartItem>) {
    |a| == |b| && forall i :: 0 <= i < |a| ==>
      && a[i].listing == b[i].listing && a[i].sku == b[i].sku && a[i].quantity == b[i].quantity
      && a[i].price == b[i].price && a[i].currency == b[i].currency
  }

  lemma LinesTell(a: seq<CartItem>, b: seq<CartItem>)
    ensures LinesOf(a) == LinesOf(b) <==> SameLines(a, b)
  {
    var x, y := LinesOf(a), LinesOf(b);
    if x == y {
      forall i | 0 <= i < |x| ensures x[i] == LineOf(a[i]) && y[i] == LineOf(b[i]) { }
    }
    assert SameLines(a, b) ==> x == y;
  }

  ghost predicate SameRequest(
    a: Id, sa: Session, ca: Id, carta: Cart, ra: FinalizeRequest, b: Id, sb: Session, cb: Id, cartb: Cart, rb: FinalizeRequest)
  {
    && a == b && ca == cb && sa.customer == sb.customer && ra.address == rb.address && ra.email == rb.email
    && SameLines(carta.items, cartb.items)
  }

  /** Two accepted requests have one fingerprint exactly when session, cart, customer,
      address, e-mail and every line, with its quantity, price and currency, are the same. */
  lemma FingerprintTells(
    a: Id, sa: Session, ca: Id, carta: Cart, ra: FinalizeRequest, b: Id, sb: Session, cb: Id, cartb: Cart, rb: FinalizeRequest)
    requires Shaped(carta.items) && Shaped(cartb.items)
    requires FinalizeFingerprint(a, sa, ca, carta, ra).Ok? && FinalizeFingerprint(b, sb, cb, cartb, rb).Ok?
    ensures FinalizeFingerprint(a, sa, ca, carta, ra) == FinalizeFingerprint(b, sb, cb, cartb, rb) <==>
      SameRequest(a, sa, ca, carta, ra, b, sb, cb, cartb, rb)
  {
    hide InsertionSort, LinesOf, Shaped, SameLines, RequestFits;
    LoadedCartIsSorted(carta.items, LinesOf(carta.items));
    LoadedCartIsSorted(cartb.items, LinesOf(cartb.items));
    LinesTell(carta.items, cartb.items);
  }

  ghost predicate Stated(session: Id, cart: Id, items: seq<CartItem>, request: FinalizeRequest) {
    && session != 0 && cart != 0 && request.session == session
    && request.address.recipient != "" && request.address.line1 != "" && request.address.city != ""
    && |request.address.country| == 2 && !Blank(request.email)
    && forall i :: 0 <= i < |items| ==>
      items[i].listing != 0 && items[i].sku != 0 && items[i].quantity > 0 && items[i].price >= 0 && items[i].currency != ""
  }

  // ---- Evaluating.

  /** What evaluation wants of the rows and of the request; a finalized session answers
      only the request it was finalized with. */
  ghost predicate Answers(t: Tables, store: Id, request: FinalizeRequest, now: Time) {
    && store != 0 && request.session != 0 && request.session in t.sessions
    && var s := t.sessions[request.session];
    && s.store == store && s.digestLength == 32 && s.cart in t.carts && t.carts[s.cart].store == store
    && Stated(request.session, s.cart, t.carts[s.cart].items, request)
    && ((s.status == SessionOpen && t.carts[s.cart].status == CartActive && now < s.expiresAt) ||
        (s.status == SessionFinalized && t.carts[s.cart].status == CartCheckedOut &&
         s.fingerprint == Some(FinalizeFingerprint(request.session, s, s.cart, t.carts[s.cart], request).value)))
  }

  lemma EvaluateExact(t: Tables, store: Id, request: FinalizeRequest, now: Time)
    ensures EvaluateCheckoutSession(t, store, request, now).Ok? <==> Answers(t, store, request, now)
    ensures var r := EvaluateCheckoutSession(t, store, request, now);
      r.Ok? ==> r.value.session == request.session && r.value.status == t.sessions[request.session].status &&
                (r.value.replay <==> Finalized(t, request.session))
  {
    hide InsertionSort;
  }
}
