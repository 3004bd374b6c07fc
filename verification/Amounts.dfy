/** The money of a checkout: no overflow goes unnoticed, and none is imagined
    (modules/commerce/checkout_session.go:593-627). */
module Amounts {
  import opened Base
  import opened Money
  import opened Records
  import opened Inventory
  import opened Fingerprints
  import opened Checkout

  /** The true total of a cart. */
  function Total(items: seq<CartItem>): int {
    if items == [] then 0
    else Total(items[..|items| - 1]) + items[|items| - 1].price * items[|items| - 1].quantity
  }

  ghost predicate AllFit(items: seq<CartItem>) {
    forall i :: 0 <= i < |items| ==> LineFits(items[i])
  }

  lemma {:induction false} TotalNonNegative(items: seq<CartItem>)
    requires AllFit(items)
    ensures Total(items) >= 0
  {
    if items != [] {
      TotalNonNegative(items[..|items| - 1]);
      ProductFits(items[|items| - 1]);
    }
  }

  lemma ProductFits(item: CartItem)
    requires LineFits(item)
    ensures item.price * item.quantity >= 0
  {
  }

  /** Facts and stock of line i are found, whatever the money says. */
  ghost predicate Stocked(c: Catalog, snaps: map<Id, Snapshot>, store: Id, market: string, currency: string,
      item: CartItem) {
    var facts := Revalidate(c, store, market, currency, item);
    facts.Ok? && Candidates(c, snaps, store, market, item.sku, facts.value.supplier) != {}
  }

  lemma LineMoney(c: Catalog, snaps: map<Id, Snapshot>, store: Id, market: string, currency: string,
      item: CartItem, so: CheckedCart)
    requires LineFits(item) && 0 <= so.subtotal
    ensures var r := CheckLine(c, snaps, store, market, currency, item, so);
            && (r.Ok? <==> Stocked(c, snaps, store, market, currency, item) && so.subtotal + item.price * item.quantity <= MAX_INT64)
            && (r.Ok? ==> r.value.subtotal == so.subtotal + item.price * item.quantity)
            && (r.Ok? ==> r.value.lines[..|so.lines|] == so.lines && |r.value.lines| == |so.lines| + 1)
            && (r.Ok? ==> r.value.lines[|so.lines|].lineTotal == item.price * item.quantity)
  {
    hide Revalidate, Candidates, CheckedMultiply, CheckedAdd;
    ProductFits(item);
    CheckedMultiplyExact(item.price, item.quantity);
    if InRange(item.price * item.quantity) {
      CheckedAddExact(so.subtotal, item.price * item.quantity);
    }
  }

  /** With every line stocked, the cart is accepted exactly when its true total fits in 64
      bits; then the subtotal is the true total and every line total the true product. */
  lemma {:induction false} SubtotalExact(c: Catalog, snaps: map<Id, Snapshot>, store: Id, market: string,
      currency: string, items: seq<CartItem>)
    requires AllFit(items)
    ensures var r := CheckLines(c, snaps, store, market, currency, items);
            && (r.Ok? <==> (forall i :: 0 <= i < |items| ==> Stocked(c, snaps, store, market, currency, items[i])) && Total(items) <= MAX_INT64)
            && (r.Ok? ==> r.value.subtotal == Total(items))
            && (r.Ok? ==> forall i :: 0 <= i < |items| ==> r.value.lines[i].lineTotal == items[i].price * items[i].quantity)
  {
    hide CheckLine, Stocked;
    if items != [] {
      var n := |items| - 1;
      SubtotalExact(c, snaps, store, market, currency, items[..n]);
      var before := CheckLines(c, snaps, store, market, currency, items[..n]);
      TotalNonNegative(items[..n]);
      ProductFits(items[n]);
      if before.Ok? {
        LineMoney(c, snaps, store, market, currency, items[n], before.value);
        assert forall i :: 0 <= i < n ==> items[..n][i] == items[i];
      }
    }
  }

  /** The later recomputation, whose error the source drops, repeats the line total. */
  lemma RecomputationIsSafe(c: Catalog, snaps: map<Id, Snapshot>, store: Id, market: string, currency: string,
      items: seq<CartItem>, i: nat)
    requires AllFit(items) && i < |items| && CheckLines(c, snaps, store, market, currency, items).Ok?
    ensures CheckedMultiply(items[i].price, items[i].quantity) ==
            Ok(CheckLines(c, snaps, store, market, currency, items).value.lines[i].lineTotal)
  {
    SubtotalExact(c, snaps, store, market, currency, items);
    CheckedMultiplyExact(items[i].price, items[i].quantity);
  }

  /** Neither the demand accumulated per snapshot nor what is left of it leaves 64 bits. */
  lemma DemandFits(lines: seq<Demand>, rows: map<Id, Snapshot>, choices: seq<Id>, id: Id)
    requires IsPlan(lines, rows, choices) && id in choices
    requires id in rows && 0 <= rows[id].reserved && rows[id].onHand <= MAX_INT64
    ensures InRange(Taken(lines, choices, id)) && InRange(Available(rows[id]) - Taken(lines, choices, id))
  {
    PlanSufficient(lines, rows, choices, id);
  }
}
