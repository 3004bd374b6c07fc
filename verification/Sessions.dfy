/** One order per cart, one number per order. */
module Sessions {
  import opened Base
  import opened Records
  import opened Fingerprints
  import opened Tables
  import opened Checkout

  // ---- Finalized sessions and orders are in bijection.

  ghost predicate OrderIndexed(t: Tables, id: Id)
    requires id in t.orders
  {
    var o := t.orders[id];
    && o.session in t.bySession && t.bySession[o.session] == id
    && o.session in t.sessions && t.sessions[o.session].status == SessionFinalized && t.sessions[o.session].store == o.store
    && (o.store, o.number) in t.byNumber && t.byNumber[(o.store, o.number)] == id
  }

  ghost predicate SessionIndexOk(orders: map<Id, Order>, index: map<Id, Id>) {
    forall s: Id :: s in index ==> index[s] in orders && orders[index[s]].session == s
  }

  ghost predicate NumberIndexOk(orders: map<Id, Order>, index: map<(Id, nat), Id>) {
    forall k :: k in index ==> index[k] in orders && (orders[index[k]].store, orders[index[k]].number) == k
  }

  ghost predicate IndexesOk(t: Tables) {
    && (forall id :: id in t.orders ==> OrderIndexed(t, id))
    && SessionIndexOk(t.orders, t.bySession)
    && NumberIndexOk(t.orders, t.byNumber)
  }

  /** What a finalized session remembers still describes its checked-out cart. */
  ghost predicate FinalizedOk(t: Tables, s: Id)
    requires s in t.sessions
  {
    var x := t.sessions[s];
    && s in t.bySession
    && CartIn(t, x.store, x.cart) && t.carts[x.cart].status == CartCheckedOut
    && x.address.Some? && x.email.Some? && x.fingerprint.Some?
    && FinalizeFingerprint(s, x, x.cart, t.carts[x.cart], FinalizeRequest(s, x.address.value, x.email.value)) == Ok(x.fingerprint.value)
    && t.carts[x.cart].items != []
    && forall i :: 0 <= i < |t.carts[x.cart].items| ==> !Blank(t.carts[x.cart].items[i].currency)
  }

  ghost predicate Finalized(t: Tables, s: Id) {
    s in t.sessions && t.sessions[s].status == SessionFinalized
  }

  ghost predicate SessionPlaced(t: Tables, s: Id)
    requires s in t.sessions
  {
    CartIn(t, t.sessions[s].store, t.sessions[s].cart)
  }

  ghost predicate SessionsOk(t: Tables) {
    && (forall s :: s in t.sessions ==> SessionPlaced(t, s))
    && (forall s :: Finalized(t, s) ==> FinalizedOk(t, s))
    && (forall a, b :: Finalized(t, a) && Finalized(t, b) && a != b ==> t.sessions[a].cart != t.sessions[b].cart)
  }

  /** A checked-out cart has a finalized session. */
  ghost predicate CartsOk(t: Tables) {
    forall c :: c in t.carts && t.carts[c].status == CartCheckedOut ==> ClosedBySome(t, c)
  }

  ghost predicate ClosedBySome(t: Tables, c: Id) {
    exists s :: Finalized(t, s) && t.sessions[s].cart == c
  }

  /** Numbers of a store's orders are exactly 100001 up to, not including, the sequence. */
  ghost predicate NumbersOk(sequences: map<Id, nat>, byNumber: map<(Id, nat), Id>) {
    && (forall store :: store in sequences ==> sequences[store] > FIRST_ORDER_NUMBER)
    && (forall store: Id, n: nat :: (store, n) in byNumber <==> FIRST_ORDER_NUMBER <= n < NextOf(sequences, store))
  }

  ghost predicate CheckoutOk(t: Tables) {
    IndexesOk(t) && SessionsOk(t) && CartsOk(t) && NumbersOk(t.sequences, t.byNumber)
  }

  // ---- Steps other than a finalize: old sessions and checked-out carts stand still.

  ghost predicate SameOrders(t: Tables, t': Tables) {
    && t'.sequences == t.sequences && t'.bySession == t.bySession && t'.byNumber == t.byNumber
    && t'.orders.Keys == t.orders.Keys
    && forall id :: id in t.orders ==>
         t'.orders[id].session == t.orders[id].session && t'.orders[id].store == t.orders[id].store &&
         t'.orders[id].number == t.orders[id].number
  }

  ghost predicate CartKept(t: Tables, t': Tables, c: Id)
    requires c in t.carts
  {
    && c in t'.carts && t'.carts[c].store == t.carts[c].store && t'.carts[c].status == t.carts[c].status
    && (t.carts[c].status == CartCheckedOut ==> t'.carts[c] == t.carts[c])
  }

  /** Existing carts keep store and status, checked-out ones everything; new ones are open. */
  ghost predicate CartsGrow(t: Tables, t': Tables) {
    && (forall c :: c in t.carts ==> CartKept(t, t', c))
    && (forall c :: c in t'.carts && c !in t.carts ==> t'.carts[c].status != CartCheckedOut)
  }

  ghost predicate SessionsGrow(t: Tables, t': Tables) {
    && (forall s :: s in t.sessions ==> s in t'.sessions && t'.sessions[s] == t.sessions[s])
    && (forall s :: s in t'.sessions && s !in t.sessions ==>
          t'.sessions[s].status != SessionFinalized &&
          CartIn(t', t'.sessions[s].store, t'.sessions[s].cart))
  }

  ghost predicate Grows(t: Tables, t': Tables) {
    SameOrders(t, t') && CartsGrow(t, t') && SessionsGrow(t, t')
  }

  lemma GrowKeepsIndexes(t: Tables, t': Tables)
    requires IndexesOk(t) && Grows(t, t')
    ensures IndexesOk(t')
  {
    forall id | id in t'.orders ensures OrderIndexed(t', id) { assert OrderIndexed(t, id); }
  }

  lemma GrowKeepsFinalized(t: Tables, t': Tables, s: Id)
    requires Grows(t, t') && Finalized(t, s) && FinalizedOk(t, s)
    ensures Finalized(t', s) && FinalizedOk(t', s)
  {
    assert CartKept(t, t', t.sessions[s].cart);
  }

  lemma GrowFinalizes(t: Tables, t': Tables, s: Id)
    requires Grows(t, t') && Finalized(t', s)
    ensures Finalized(t, s) && t'.sessions[s] == t.sessions[s]
  {
  }

  lemma GrowKeepsSessions(t: Tables, t': Tables)
    requires SessionsOk(t) && Grows(t, t')
    ensures SessionsOk(t')
  {
    forall s | s in t'.sessions ensures SessionPlaced(t', s) {
      if s in t.sessions {
        assert SessionPlaced(t, s);
        assert CartKept(t, t', t.sessions[s].cart);
      }
    }
    forall s | Finalized(t', s) ensures FinalizedOk(t', s) {
      GrowFinalizes(t, t', s);
      GrowKeepsFinalized(t, t', s);
    }
    forall a, b | Finalized(t', a) && Finalized(t', b) && a != b ensures t'.sessions[a].cart != t'.sessions[b].cart {
      GrowFinalizes(t, t', a);
      GrowFinalizes(t, t', b);
    }
  }

  lemma GrowKeepsCarts(t: Tables, t': Tables)
    requires CartsOk(t) && Grows(t, t')
    ensures CartsOk(t')
  {
    forall c | c in t'.carts && t'.carts[c].status == CartCheckedOut ensures ClosedBySome(t', c) {
      assert c in t.carts && CartKept(t, t', c);
      assert ClosedBySome(t, c);
      var s :| Finalized(t, s) && t.sessions[s].cart == c;
      assert Finalized(t', s);
    }
  }

  lemma GrowKeepsNumbers(t: Tables, t': Tables)
    requires NumbersOk(t.sequences, t.byNumber) && Grows(t, t')
    ensures NumbersOk(t'.sequences, t'.byNumber)
  {
  }

  lemma GrowKeepsCheckout(t: Tables, t': Tables)
    requires CheckoutOk(t) && Grows(t, t')
    ensures CheckoutOk(t')
  {
    GrowKeepsIndexes(t, t');
    GrowKeepsSessions(t, t');
    GrowKeepsCarts(t, t');
    GrowKeepsNumbers(t, t');
  }
}
