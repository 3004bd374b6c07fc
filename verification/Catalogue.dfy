/** Public catalogue queries and the store selectors that invalidate them
    (modules/catalog/selection.go, modules/storefront/catalog_repository.go,
    modules/commerce/storefront_revision.go). */
module Catalogue {
  import opened Base
  import opened Records

  type Snapshots = map<Id, Snapshot>

  // ---- CanonicalListingSQL.

  /** The supplier product the offer is joined through exists and carries the product. */
  predicate OfferCarries(c: Catalog, offer: Offer, product: Id) {
    && offer.supplierProduct in c.supplierProducts
    && c.supplierProducts[offer.supplierProduct] == SupplierProduct(offer.supplier, product)
  }

  predicate Eligible(c: Catalog, store: Id, market: string, product: Id, id: Id) {
    && id in c.listings
    && var l := c.listings[id];
    && l.store == store && l.product == product && l.market == market && l.active
    && store in c.stores && c.stores[store].market == market
    && market in c.markets
    && product in c.products && c.products[product].active
    && l.price.Some?
    && (l.offer.Some? ==>
          && l.offer.value in c.offers
          && var o := c.offers[l.offer.value];
          o.market == market && o.active && OfferCarries(c, o, product))
  }

  /** Newest eligible listing of the product: ORDER BY created_at DESC, id DESC. */
  predicate Newer(c: Catalog, a: Id, b: Id)
    requires a in c.listings && b in c.listings
  {
    c.listings[a].createdAt > c.listings[b].createdAt ||
    (c.listings[a].createdAt == c.listings[b].createdAt && a > b)
  }

  ghost predicate Canonical(c: Catalog, store: Id, market: string, product: Id, id: Id) {
    && Eligible(c, store, market, product, id)
    && forall other :: Eligible(c, store, market, product, other) && other != id ==> Newer(c, id, other)
  }

  predicate SupplierAvailable(c: Catalog, l: Listing) {
    l.offer.Some? && l.offer.value in c.offers ==> c.offers[l.offer.value].available != Some(false)
  }

  /** DISTINCT ON keeps at most one listing per store and product, and keeps one
      whenever any is eligible. */
  lemma CanonicalUnique(c: Catalog, store: Id, market: string, product: Id, a: Id, b: Id)
    requires Canonical(c, store, market, product, a) && Canonical(c, store, market, product, b)
    ensures a == b
  {
    assert a != b ==> Newer(c, a, b);
  }

  lemma CanonicalExists(c: Catalog, store: Id, market: string, product: Id, some: Id) returns (id: Id)
    requires Eligible(c, store, market, product, some)
    ensures Canonical(c, store, market, product, id)
  {
    var all := set l | l in c.listings && Eligible(c, store, market, product, l);
    assert some in all;
    id := NewestOf(c, all);
    forall other | Eligible(c, store, market, product, other) && other != id ensures Newer(c, id, other) {
      assert other in all;
    }
  }

  lemma {:induction false} NewestOf(c: Catalog, all: set<Id>) returns (id: Id)
    requires all != {} && all <= c.listings.Keys
    ensures id in all && forall o :: o in all && o != id ==> Newer(c, id, o)
    decreases |all|
  {
    var x :| x in all;
    var rest := all - {x};
    id := x;
    if rest != {} {
      var best := NewestOf(c, rest);
      id := if Newer(c, x, best) then x else best;
    }
    forall o | o in all && o != id ensures Newer(c, id, o) {
      assert o == x || o in rest;
    }
  }

  // ---- Source-aware stock.

  /** Stock at a location counts for a listing only when both have the same source. */
  predicate SameSource(c: Catalog, l: Listing, loc: Location) {
    || (l.offer.None? && loc.store == Some(l.store) && loc.supplier.None?)
    || (l.offer.Some? && loc.store.None? && l.offer.value in c.offers &&
        loc.supplier == Some(c.offers[l.offer.value].supplier))
  }

  /** Snapshot row inv makes SKU sku of listing l available. */
  predicate Stocks(c: Catalog, snaps: Snapshots, l: Listing, sku: Id, inv: Id) {
    && inv in snaps && snaps[inv].sku == sku
    && snaps[inv].location in c.locations
    && var loc := c.locations[snaps[inv].location];
    && loc.active && loc.market == l.market && SameSource(c, l, loc)
    && snaps[inv].onHand - snaps[inv].reserved > 0
  }

  predicate SkuOf(c: Catalog, product: Id, sku: Id) {
    sku in c.skus && c.skus[sku].variant in c.variants && c.variants[c.skus[sku].variant].product == product
  }

  ghost predicate ShowsStock(
    c: Catalog, snaps: Snapshots, store: Id, market: string, product: Id, sku: Id, id: Id, inv: Id)
  {
    && Canonical(c, store, market, product, id) && SupplierAvailable(c, c.listings[id])
    && SkuOf(c, product, sku) && c.skus[sku].active
    && Stocks(c, snaps, c.listings[id], sku, inv)
  }

  /** Availability of one SKU, as productVariants reports it. */
  ghost predicate SkuInStock(c: Catalog, snaps: Snapshots, store: Id, market: string, product: Id, sku: Id) {
    exists id, inv :: ShowsStock(c, snaps, store, market, product, sku, id, inv)
  }

  /** The in_stock bit of eligibleListings. */
  ghost predicate InStock(c: Catalog, snaps: Snapshots, store: Id, market: string, product: Id) {
    exists sku :: SkuInStock(c, snaps, store, market, product, sku)
  }

  // ---- Store selectors.

  /** inventoryListingStores: walk a stock row back to the listings it may serve. */
  predicate Serves(c: Catalog, s: Snapshot, l: Listing) {
    && SkuOf(c, l.product, s.sku)
    && s.location in c.locations
    && SameSource(c, l, c.locations[s.location])
  }

  function StoresByInventorySnapshot(c: Catalog, snaps: Snapshots, inv: Id): set<Id> {
    set id | id in c.listings && inv in snaps && Serves(c, snaps[inv], c.listings[id]) && c.listings[id].store in c.stores
      :: c.listings[id].store
  }

  function StoresBySku(c: Catalog, sku: Id): set<Id> {
    set id | id in c.listings && SkuOf(c, c.listings[id].product, sku) && c.listings[id].store in c.stores
      :: c.listings[id].store
  }

  function StoresByFulfillmentLocation(c: Catalog, snaps: Snapshots, location: Id): set<Id> {
    set id, inv | id in c.listings && inv in snaps && snaps[inv].location == location &&
                  Serves(c, snaps[inv], c.listings[id]) && c.listings[id].store in c.stores
      :: c.listings[id].store
  }

  /** bumpStorefrontRevisions: a store without a row reads as 1, so its next value is 2. */
  function Bumped(revisions: map<Id, nat>, stores: set<Id>): map<Id, nat> {
    revisions + map s | s in stores :: if s in revisions then revisions[s] + 1 else 2
  }

  function Revision(revisions: map<Id, nat>, store: Id): nat {
    if store in revisions then revisions[store] else 1
  }

  lemma BumpAdvances(revisions: map<Id, nat>, stores: set<Id>, store: Id)
    ensures Revision(Bumped(revisions, stores), store) ==
            Revision(revisions, store) + if store in stores then 1 else 0
  {
  }

  // ---- Stock writes are covered by the selectors.

  /** Rewriting one stock row, sku and location unchanged, can only move the SKU
      availability of stores the inventory selector returns. */
  lemma SnapshotWriteCovered(
    c: Catalog, snaps: Snapshots, inv: Id, row: Snapshot, store: Id, market: string, product: Id, sku: Id)
    requires inv in snaps && row.sku == snaps[inv].sku && row.location == snaps[inv].location
    requires SkuInStock(c, snaps, store, market, product, sku) !=
             SkuInStock(c, snaps[inv := row], store, market, product, sku)
    ensures store in StoresByInventorySnapshot(c, snaps, inv)
  {
    var after := snaps[inv := row];
    if SkuInStock(c, snaps, store, market, product, sku) {
      StockMoved(c, snaps, after, store, market, product, sku, inv);
    } else {
      StockMoved(c, after, snaps, store, market, product, sku, inv);
    }
  }

  /** If stock is there before and gone after, the changed row served the listing. */
  lemma StockMoved(
    c: Catalog, a: Snapshots, b: Snapshots, store: Id, market: string, product: Id, sku: Id, inv: Id)
    requires a.Keys == b.Keys && inv in a && a[inv].sku == b[inv].sku && a[inv].location == b[inv].location
    requires forall k :: k in a && k != inv ==> a[k] == b[k]
    requires SkuInStock(c, a, store, market, product, sku) && !SkuInStock(c, b, store, market, product, sku)
    ensures store in StoresByInventorySnapshot(c, a, inv) && store in StoresByInventorySnapshot(c, b, inv)
  {
    var id, k :| ShowsStock(c, a, store, market, product, sku, id, k);
    assert k != inv ==> ShowsStock(c, b, store, market, product, sku, id, k);
    assert Serves(c, a[inv], c.listings[id]);
  }

  /** The product bit follows the SKU bits, so it is covered too. */
  lemma SnapshotWriteCoversProduct(
    c: Catalog, snaps: Snapshots, inv: Id, row: Snapshot, store: Id, market: string, product: Id)
    requires inv in snaps && row.sku == snaps[inv].sku && row.location == snaps[inv].location
    requires InStock(c, snaps, store, market, product) != InStock(c, snaps[inv := row], store, market, product)
    ensures store in StoresByInventorySnapshot(c, snaps, inv)
  {
    var after := snaps[inv := row];
    if InStock(c, snaps, store, market, product) {
      var sku :| SkuInStock(c, snaps, store, market, product, sku);
      SnapshotWriteCovered(c, snaps, inv, row, store, market, product, sku);
    } else {
      var sku :| SkuInStock(c, after, store, market, product, sku);
      SnapshotWriteCovered(c, snaps, inv, row, store, market, product, sku);
    }
  }

  /** A new stock row can only move availability of stores that list its SKU's product. */
  lemma SnapshotInsertCovered(
    c: Catalog, snaps: Snapshots, inv: Id, row: Snapshot, store: Id, market: string, product: Id, sku: Id)
    requires inv !in snaps
    requires SkuInStock(c, snaps, store, market, product, sku) !=
             SkuInStock(c, snaps[inv := row], store, market, product, sku)
    ensures store in StoresBySku(c, row.sku)
  {
    var after := snaps[inv := row];
    if SkuInStock(c, snaps, store, market, product, sku) {
      var id, k :| ShowsStock(c, snaps, store, market, product, sku, id, k);
      assert ShowsStock(c, after, store, market, product, sku, id, k);
    }
    var id, k :| ShowsStock(c, after, store, market, product, sku, id, k);
    assert k != inv ==> ShowsStock(c, snaps, store, market, product, sku, id, k);
  }

  /** A location's status only reaches stores selected by that location. */
  lemma LocationStatusCovered(
    c: Catalog, snaps: Snapshots, location: Id, active: bool, store: Id, market: string, product: Id, sku: Id)
    requires location in c.locations
    requires var c' := c.(locations := c.locations[location := c.locations[location].(active := active)]);
             SkuInStock(c, snaps, store, market, product, sku) != SkuInStock(c', snaps, store, market, product, sku)
    ensures store in StoresByFulfillmentLocation(c, snaps, location)
  {
    var c' := c.(locations := c.locations[location := c.locations[location].(active := active)]);
    if SkuInStock(c, snaps, store, market, product, sku) {
      LocationMoved(c, c', snaps, location, store, market, product, sku);
    } else {
      LocationMoved(c', c, snaps, location, store, market, product, sku);
    }
  }

  ghost predicate OnlyLocationStatus(a: Catalog, b: Catalog, location: Id) {
    && b == a.(locations := b.locations)
    && a.locations.Keys == b.locations.Keys && location in a.locations
    && (forall k :: k in a.locations && k != location ==> a.locations[k] == b.locations[k])
    && b.locations[location] == a.locations[location].(active := b.locations[location].active)
  }

  lemma LocationMoved(
    a: Catalog, b: Catalog, snaps: Snapshots, location: Id, store: Id, market: string, product: Id, sku: Id)
    requires OnlyLocationStatus(a, b, location)
    requires SkuInStock(a, snaps, store, market, product, sku) && !SkuInStock(b, snaps, store, market, product, sku)
    ensures store in StoresByFulfillmentLocation(a, snaps, location)
    ensures store in StoresByFulfillmentLocation(b, snaps, location)
  {
    var id, k :| ShowsStock(a, snaps, store, market, product, sku, id, k);
    assert forall o :: Eligible(a, store, market, product, o) <==> Eligible(b, store, market, product, o);
    assert Canonical(b, store, market, product, id);
    assert snaps[k].location != location ==> ShowsStock(b, snaps, store, market, product, sku, id, k);
    assert Serves(a, snaps[k], a.listings[id]) && Serves(b, snaps[k], b.listings[id]);
  }
}
