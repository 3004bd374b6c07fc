/** A committed finalize keeps carts, sessions, orders and numbers in step. */
module Placement {
  import opened Base
  import opened Records
  import opened Fingerprints
  import opened Tables
  import opened Checkout
  import opened Finalize
  import opened Sessions

  /** What a successful finalize starts from. */
  ghost predicate MayClose(t: Tables, request: FinalizeRequest, fp: Fingerprint) {
    && request.session in t.sessions
    && var s := t.sessions[request.session];
    && s.status == SessionOpen && CartIn(t, s.store, s.cart) && t.carts[s.cart].status == CartActive
    && t.carts[s.cart].items != []
    && (forall i :: 0 <= i < |t.carts[s.cart].items| ==> ItemTextOk(t.carts[s.cart].items[i]))
    && FinalizeFingerprint(request.session, s, s.cart, t.carts[s.cart], request) == Ok(fp)
  }

  /** What it writes outside the stock tables. */
  ghost predicate Closes(t: Tables, t': Tables, request: FinalizeRequest, fp: Fingerprint, id: Id, o: Order) {
    && MayClose(t, request, fp)
    && var s := t.sessions[request.session];
    && id !in t.orders && o.session == request.session && o.store == s.store && o.number == NextOf(t.sequences, o.store)
    && t'.orders == t.orders[id := o]
    && t'.bySession == t.bySession[request.session := id]
    && t'.byNumber == t.byNumber[(o.store, o.number) := id]
    && t'.sequences == t.sequences[o.store := o.number + 1]
    && t'.sessions == t.sessions[request.session := ClosedSession(s, request, fp)]
    && t'.carts == t.carts[s.cart := t.carts[s.cart].(status := CartCheckedOut)]
  }

  /** An open session has no order yet, and the next number is unused. */
  lemma SlotsFree(t: Tables, request: FinalizeRequest, fp: Fingerprint, store: Id)
    requires CheckoutOk(t) && MayClose(t, request, fp)
    ensures request.session !in t.bySession
    ensures (store, NextOf(t.sequences, store)) !in t.byNumber
  {
    assert request.session in t.bySession ==> OrderIndexed(t, t.bySession[request.session]);
  }

  lemma CloseIndexes(t: Tables, t': Tables, request: FinalizeRequest, fp: Fingerprint, id: Id, o: Order, k: Id)
    requires IndexesOk(t) && Closes(t, t', request, fp, id, o)
    requires request.session !in t.bySession && (o.store, o.number) !in t.byNumber
    requires k in t'.orders
    ensures OrderIndexed(t', k)
  {
    if k != id { assert OrderIndexed(t, k); }
  }

  lemma SessionIndexGrows(orders: map<Id, Order>, index: map<Id, Id>, id: Id, o: Order)
    requires SessionIndexOk(orders, index) && id !in orders
    ensures SessionIndexOk(orders[id := o], index[o.session := id])
  {
  }

  lemma NumberIndexGrows(orders: map<Id, Order>, index: map<(Id, nat), Id>, id: Id, o: Order)
    requires NumberIndexOk(orders, index) && id !in orders
    ensures NumberIndexOk(orders[id := o], index[(o.store, o.number) := id])
  {
  }

  lemma CloseKeepsIndexes(t: Tables, t': Tables, request: FinalizeRequest, fp: Fingerprint, id: Id, o: Order)
    requires CheckoutOk(t) && Closes(t, t', request, fp, id, o)
    ensures IndexesOk(t')
  {
    SlotsFree(t, request, fp, o.store);
    forall k | k in t'.orders ensures OrderIndexed(t', k) {
      CloseIndexes(t, t', request, fp, id, o, k);
    }
    SessionIndexGrows(t.orders, t.bySession, id, o);
    NumberIndexGrows(t.orders, t.byNumber, id, o);
  }

  lemma ClosedCartUnused(t: Tables, request: FinalizeRequest, fp: Fingerprint, s: Id)
    requires SessionsOk(t) && MayClose(t, request, fp) && Finalized(t, s)
    ensures t.sessions[s].cart != t.sessions[request.session].cart
  {
    assert FinalizedOk(t, s);
  }

  lemma CloseFinalizes(t: Tables, t': Tables, request: FinalizeRequest, fp: Fingerprint, id: Id, o: Order, s: Id)
    requires SessionsOk(t) && Closes(t, t', request, fp, id, o) && Finalized(t', s)
    ensures FinalizedOk(t', s)
  {
    if s != request.session {
      assert Finalized(t, s) && FinalizedOk(t, s);
      ClosedCartUnused(t, request, fp, s);
    }
  }

  lemma CloseKeepsSessions(t: Tables, t': Tables, request: FinalizeRequest, fp: Fingerprint, id: Id, o: Order)
    requires SessionsOk(t) && Closes(t, t', request, fp, id, o)
    ensures SessionsOk(t')
  {
    forall s | s in t'.sessions ensures SessionPlaced(t', s) { assert SessionPlaced(t, s); }
    forall s | Finalized(t', s) ensures FinalizedOk(t', s) { CloseFinalizes(t, t', request, fp, id, o, s); }
    forall a, b | Finalized(t', a) && Finalized(t', b) && a != b ensures t'.sessions[a].cart != t'.sessions[b].cart {
      if a != request.session { ClosedCartUnused(t, request, fp, a); }
      if b != request.session { ClosedCartUnused(t, request, fp, b); }
    }
  }

  lemma CloseKeepsCarts(t: Tables, t': Tables, request: FinalizeRequest, fp: Fingerprint, id: Id, o: Order)
    requires CartsOk(t) && Closes(t, t', request, fp, id, o)
    ensures CartsOk(t')
  {
    assert Finalized(t', request.session);
    forall c | c in t'.carts && t'.carts[c].status == CartCheckedOut ensures ClosedBySome(t', c) {
      if c != t.sessions[request.session].cart {
        assert ClosedBySome(t, c);
        var s :| Finalized(t, s) && t.sessions[s].cart == c;
        assert Finalized(t', s);
      }
    }
  }

  /** Numbers stay gap-free: the one taken is the one the sequence names. */
  lemma NumberTaken(sequences: map<Id, nat>, byNumber: map<(Id, nat), Id>, store: Id, id: Id)
    requires NumbersOk(sequences, byNumber)
    ensures NumbersOk(sequences[store := NextOf(sequences, store) + 1], byNumber[(store, NextOf(sequences, store)) := id])
  {
  }

  lemma CloseKeepsCheckout(t: Tables, t': Tables, request: FinalizeRequest, fp: Fingerprint, id: Id, o: Order)
    requires CheckoutOk(t) && Closes(t, t', request, fp, id, o)
    ensures CheckoutOk(t')
  {
    CloseKeepsIndexes(t, t', request, fp, id, o);
    CloseKeepsSessions(t, t', request, fp, id, o);
    CloseKeepsCarts(t, t', request, fp, id, o);
    NumberTaken(t.sequences, t.byNumber, o.store, id);
  }

  lemma OpenedMayClose(t: Tables, store: Id, request: FinalizeRequest, now: Time)
    requires Opened(t, store, request, now).Ok?
    requires t.sessions[request.session].status != SessionFinalized
    ensures MayClose(t, request, Opened(t, store, request, now).value)
    ensures t.sessions[request.session].store == store
  {
  }
}
