/** What the public storefront shows and what checkout can sell agree
    (modules/storefront/catalog_repository.go:54-221, modules/commerce/inventory_lifecycle.go:30-50). */
module Availability {
  import opened Base
  import opened Records
  import opened Inventory
  import opened Tables
  import opened Checkout
  import opened Catalogue
  import opened Closure
  import opened Categories
  import Cache

  // ---- The in-stock bit.

  /** The supplier whose stock a listing sells from; None is the store itself. */
  function SupplierOf(c: Catalog, id: Id): Option<Id> {
    if id in c.listings && c.listings[id].offer.Some? && c.listings[id].offer.value in c.offers
    then Some(c.offers[c.listings[id].offer.value].supplier) else None
  }

  /** Checkout could allocate one unit for the listing, nothing else being taken. */
  ghost predicate Allocatable(c: Catalog, snaps: Snapshots, store: Id, market: string, sku: Id, id: Id) {
    Allocation(Candidates(c, snaps, store, market, sku, SupplierOf(c, id)), snaps, 1, map[]).Ok?
  }

  /** The product's canonical listing in the store may sell the SKU. */
  ghost predicate Sells(c: Catalog, store: Id, market: string, product: Id, sku: Id, id: Id) {
    && Canonical(c, store, market, product, id) && SupplierAvailable(c, c.listings[id])
    && sku in c.skus && c.skus[sku].active && c.skus[sku].variant in c.variants && c.variants[c.skus[sku].variant].product == product
  }

  /** Some snapshot of the SKU at an active location of the market, owned by the listing's
      source, has a unit that is not reserved. */
  ghost predicate HasUnit(c: Catalog, snaps: Snapshots, store: Id, market: string, sku: Id, supplier: Option<Id>, inv: Id) {
    && inv in snaps && snaps[inv].sku == sku && snaps[inv].location in c.locations
    && var loc := c.locations[snaps[inv].location];
    && loc.active && loc.market == market
    && (if supplier.None? then loc.store == Some(store) && loc.supplier.None? else loc.store.None? && loc.supplier == supplier)
    && snaps[inv].onHand - snaps[inv].reserved >= 1
  }

  lemma UnitIsStock(c: Catalog, snaps: Snapshots, store: Id, market: string, product: Id, sku: Id, id: Id, inv: Id)
    requires Sells(c, store, market, product, sku, id)
    ensures ShowsStock(c, snaps, store, market, product, sku, id, inv) <==>
            HasUnit(c, snaps, store, market, sku, SupplierOf(c, id), inv)
  {
  }

  lemma UnitIsCarried(c: Catalog, snaps: Snapshots, store: Id, market: string, sku: Id, supplier: Option<Id>, inv: Id)
    ensures HasUnit(c, snaps, store, market, sku, supplier, inv) <==>
            inv in Candidates(c, snaps, store, market, sku, supplier) && Carries(snaps, map[], 1, inv)
  {
  }

  /** A SKU shows as in stock exactly when the canonical listing may sell it and checkout
      could allocate one unit of it: some candidate snapshot of the listing's source has a
      unit that is neither sold nor reserved. */
  lemma SkuInStockExact(c: Catalog, snaps: Snapshots, store: Id, market: string, product: Id, sku: Id)
    ensures SkuInStock(c, snaps, store, market, product, sku) <==>
      exists id :: Sells(c, store, market, product, sku, id) && Allocatable(c, snaps, store, market, sku, id)
    ensures forall id :: Sells(c, store, market, product, sku, id) ==>
      (SkuInStock(c, snaps, store, market, product, sku) <==>
       exists inv :: HasUnit(c, snaps, store, market, sku, SupplierOf(c, id), inv))
  {
    hide Candidates, HasUnit, Carries, Sells, Allocation, SupplierOf;
    forall id | Sells(c, store, market, product, sku, id)
      ensures Allocatable(c, snaps, store, market, sku, id) <==>
        exists inv :: HasUnit(c, snaps, store, market, sku, SupplierOf(c, id), inv)
      ensures SkuInStock(c, snaps, store, market, product, sku) <==>
        exists inv :: HasUnit(c, snaps, store, market, sku, SupplierOf(c, id), inv)
    {
      UnitsAllocate(c, snaps, store, market, sku, SupplierOf(c, id));
      SoldFrom(c, snaps, store, market, product, sku, id);
    }
    if SkuInStock(c, snaps, store, market, product, sku) {
      var id, inv :| ShowsStock(c, snaps, store, market, product, sku, id, inv);
      ShownSells(c, snaps, store, market, product, sku, id, inv);
    }
  }

  lemma ShownSells(c: Catalog, snaps: Snapshots, store: Id, market: string, product: Id, sku: Id, id: Id, inv: Id)
    requires ShowsStock(c, snaps, store, market, product, sku, id, inv)
    ensures Sells(c, store, market, product, sku, id)
  {
  }

  lemma UnitsAllocate(c: Catalog, snaps: Snapshots, store: Id, market: string, sku: Id, supplier: Option<Id>)
    ensures Allocation(Candidates(c, snaps, store, market, sku, supplier), snaps, 1, map[]).Ok? <==>
      exists inv :: HasUnit(c, snaps, store, market, sku, supplier, inv)
  {
    var all := Candidates(c, snaps, store, market, sku, supplier);
    AllocationExact(all, snaps, 1, map[]);
    hide Candidates, HasUnit, Carries, Allocation;
    if inv :| HasUnit(c, snaps, store, market, sku, supplier, inv) { UnitIsCarried(c, snaps, store, market, sku, supplier, inv); }
    if inv :| inv in all && Carries(snaps, map[], 1, inv) { UnitIsCarried(c, snaps, store, market, sku, supplier, inv); }
  }

  lemma SoldFrom(c: Catalog, snaps: Snapshots, store: Id, market: string, product: Id, sku: Id, id: Id)
    requires Sells(c, store, market, product, sku, id)
    ensures SkuInStock(c, snaps, store, market, product, sku) <==>
      exists inv :: HasUnit(c, snaps, store, market, sku, SupplierOf(c, id), inv)
  {
    hide HasUnit;
    if SkuInStock(c, snaps, store, market, product, sku) {
      var other, inv :| ShowsStock(c, snaps, store, market, product, sku, other, inv);
      CanonicalUnique(c, store, market, product, id, other);
      UnitIsStock(c, snaps, store, market, product, sku, id, inv);
    }
    if inv :| HasUnit(c, snaps, store, market, sku, SupplierOf(c, id), inv) {
      UnitIsStock(c, snaps, store, market, product, sku, id, inv);
    }
  }

  /** The product's bit is on exactly when some SKU of it shows. */
  lemma InStockExact(c: Catalog, snaps: Snapshots, store: Id, market: string, product: Id)
    ensures InStock(c, snaps, store, market, product) <==>
      exists sku, id :: Sells(c, store, market, product, sku, id) && Allocatable(c, snaps, store, market, sku, id)
  {
    hide Sells, Allocatable;
    forall sku: Id { SkuInStockExact(c, snaps, store, market, product, sku); }
    if sku :| SkuInStock(c, snaps, store, market, product, sku) {
      var id :| Sells(c, store, market, product, sku, id) && Allocatable(c, snaps, store, market, sku, id);
    }
    if sku, id :| Sells(c, store, market, product, sku, id) && Allocatable(c, snaps, store, market, sku, id) {
      assert SkuInStock(c, snaps, store, market, product, sku);
    }
  }

  // ---- Holding the last units.

  /** The rows that may serve the SKU all stand still except the one held. */
  ghost predicate OnlyServes(c: Catalog, snaps: Snapshots, store: Id, market: string, product: Id, sku: Id, id: Id, inv: Id) {
    && Sells(c, store, market, product, sku, id)
    && Candidates(c, snaps, store, market, sku, SupplierOf(c, id)) == {inv}
  }

  /** Holding all that is available of the only snapshot that serves a SKU turns its bit
      off, and releasing the hold turns it on again. */
  lemma LastUnitsHeld(c: Catalog, st: Stock, store: Id, market: string, product: Id, sku: Id, id: Id, inv: Id,
      reservation: Id, deadline: Time)
    requires OnlyServes(c, st.snapshots, store, market, product, sku, id, inv)
    requires SkuInStock(c, st.snapshots, store, market, product, sku)
    ensures inv in st.snapshots
    ensures var q := Available(st.snapshots[inv]);
            var held := Hold(st, inv, q, reservation, deadline).snapshots;
            var released := held[inv := SettledRow(Release, held[inv], q)];
            && q >= 1 && !SkuInStock(c, held, store, market, product, sku) && SkuInStock(c, released, store, market, product, sku)
  {
    var supplier := SupplierOf(c, id);
    OnlyCandidate(c, st.snapshots, store, market, sku, supplier, inv);
    var q := Available(st.snapshots[inv]);
    var held := Hold(st, inv, q, reservation, deadline).snapshots;
    var released := held[inv := SettledRow(Release, held[inv], q)];
    hide Sells, SkuInStock, Allocatable, HasUnit, Candidates;
    SkuInStockExact(c, st.snapshots, store, market, product, sku);
    SkuInStockExact(c, held, store, market, product, sku);
    SkuInStockExact(c, released, store, market, product, sku);
    var only :| HasUnit(c, st.snapshots, store, market, sku, supplier, only);
    UnitHere(c, st.snapshots, store, market, sku, supplier, inv, only);
    UnitMoves(c, st.snapshots, held, store, market, sku, supplier, inv);
    UnitMoves(c, st.snapshots, released, store, market, sku, supplier, inv);
  }

  lemma OnlyCandidate(c: Catalog, snaps: Snapshots, store: Id, market: string, sku: Id, supplier: Option<Id>, inv: Id)
    requires Candidates(c, snaps, store, market, sku, supplier) == {inv}
    ensures inv in snaps
  {
    assert inv in Candidates(c, snaps, store, market, sku, supplier);
  }

  lemma UnitHere(c: Catalog, snaps: Snapshots, store: Id, market: string, sku: Id, supplier: Option<Id>, inv: Id, k: Id)
    requires Candidates(c, snaps, store, market, sku, supplier) == {inv} && HasUnit(c, snaps, store, market, sku, supplier, k)
    ensures k == inv && inv in snaps && Available(snaps[inv]) >= 1
  {
    assert k in Candidates(c, snaps, store, market, sku, supplier);
  }

  /** After a change of one row's counters the only snapshot that can have a unit is still
      that one, and it has one exactly when something of it is available. */
  lemma UnitMoves(c: Catalog, snaps: Snapshots, after: Snapshots, store: Id, market: string, sku: Id, supplier: Option<Id>, inv: Id)
    requires Candidates(c, snaps, store, market, sku, supplier) == {inv} && inv in snaps
    requires inv in after && after == snaps[inv := after[inv]] && after[inv].sku == snaps[inv].sku && after[inv].location == snaps[inv].location
    ensures forall k :: HasUnit(c, after, store, market, sku, supplier, k) ==> k == inv
    ensures HasUnit(c, after, store, market, sku, supplier, inv) <==> Available(after[inv]) >= 1
  {
    assert inv in Candidates(c, snaps, store, market, sku, supplier);
    forall k | HasUnit(c, after, store, market, sku, supplier, k) ensures k == inv {
      assert k == inv || k in Candidates(c, snaps, store, market, sku, supplier);
    }
  }

  // ---- The category tree.

  ghost predicate Published(c: Catalog, store: Id, market: string, product: Id) {
    exists id :: Canonical(c, store, market, product, id)
  }

  /** An active category with a product the store publishes. */
  ghost predicate Stocked(c: Catalog, store: Id, market: string, x: Id) {
    x in c.categories && c.categories[x].active && exists p :: (p, x) in c.productCategories && Published(c, store, market, p)
  }

  /** p goes from a category to its parent, to that one's parent, and so on. */
  ghost predicate Climbs(c: Catalog, p: seq<Id>) {
    p != [] && forall i :: 0 <= i < |p| - 1 ==> p[i] in c.categories && c.categories[p[i]].parent == Some(p[i + 1])
  }

  lemma ClimbIsPath(c: Catalog, p: seq<Id>)
    ensures Climbs(c, p) <==> Path(ParentEdges(c), p)
  {
    forall x: Id, y: Id { EdgeOf(c, x, y); }
    if Climbs(c, p) {
      forall i | 0 <= i < |p| - 1 ensures (p[i], p[i + 1]) in ParentEdges(c) { assert c.categories[p[i]].parent == Some(p[i + 1]); }
    }
    if Path(ParentEdges(c), p) {
      forall i | 0 <= i < |p| - 1 ensures p[i] in c.categories && c.categories[p[i]].parent == Some(p[i + 1]) {
        assert (p[i], p[i + 1]) in ParentEdges(c);
      }
    }
  }

  lemma DirectIsStocked(c: Catalog, store: Id, market: string, x: Id)
    ensures x in Direct(c, store, market) <==> Stocked(c, store, market, x)
  {
    if x in Direct(c, store, market) {
      var p :| p in PublicProducts(c, store, market, x);
      assert Published(c, store, market, p);
    }
    if Stocked(c, store, market, x) {
      var p :| (p, x) in c.productCategories && Published(c, store, market, p);
      assert p in PublicProducts(c, store, market, x);
    }
  }

  /** x is an active category at or above one in which the store publishes a product. */
  ghost predicate Above(c: Catalog, store: Id, market: string, x: Id) {
    && x in c.categories && c.categories[x].active
    && exists p :: Climbs(c, p) && Stocked(c, store, market, p[0]) && p[|p| - 1] == x
  }

  /** The public tree holds exactly the active categories above, or among, the active
      categories in which the store publishes a product, however the graph is wired. */
  lemma TreeExact(c: Catalog, store: Id, scope: Scope, x: Id)
    ensures x in PublicTree(c, store, scope) <==> Above(c, store, scope.market, x)
  {
    hide Reachable, Direct, Stocked, Climbs;
    var e, seeds := ParentEdges(c), Direct(c, store, scope.market);
    ReachableIsLed(e, seeds);
    if LedFrom(e, seeds, x) {
      var a :| a in seeds && Leads(e, a, x);
      var p :| PathFrom(e, a, x, p);
      ClimbIsPath(c, p);
      DirectIsStocked(c, store, scope.market, a);
      assert Climbs(c, p) && Stocked(c, store, scope.market, p[0]) && p[|p| - 1] == x;
    }
    if p :| p != [] && Climbs(c, p) && Stocked(c, store, scope.market, p[0]) && p[|p| - 1] == x {
      ClimbIsPath(c, p);
      DirectIsStocked(c, store, scope.market, p[0]);
      assert PathFrom(e, p[0], x, p);
      assert LedFrom(e, seeds, x);
    }
    NonEmptyClimbs(c);
  }

  lemma NonEmptyClimbs(c: Catalog)
    ensures forall p :: Climbs(c, p) ==> p != []
  {
  }

  /** What a node of the tree says: its own slug, its name in the locale, else in the
      fallback locale, else its slug, its parent's slug if the parent is active, and how
      many products the store publishes in it. */
  lemma NodeExact(c: Catalog, store: Id, scope: Scope, x: Id)
    requires x in PublicTree(c, store, scope)
    ensures x in c.categories
    ensures var node := PublicTree(c, store, scope)[x];
            var parent := c.categories[x].parent;
            && node.slug == c.categories[x].slug
            && ((x, scope.locale) in c.categoryNames ==> node.name == c.categoryNames[(x, scope.locale)])
            && ((x, scope.locale) !in c.categoryNames && (x, scope.fallback) in c.categoryNames ==> node.name == c.categoryNames[(x, scope.fallback)])
            && ((x, scope.locale) !in c.categoryNames && (x, scope.fallback) !in c.categoryNames ==> node.name == c.categories[x].slug)
            && (parent.Some? && parent.value in c.categories && c.categories[parent.value].active ==> node.parentSlug == c.categories[parent.value].slug)
            && (!(parent.Some? && parent.value in c.categories && c.categories[parent.value].active) ==> node.parentSlug == "")
            && node.productCount == |set p | p in c.productCategories && p.1 == x && Published(c, store, scope.market, p.0) :: p.0|
  {
    assert PublicProducts(c, store, scope.market, x) ==
      set p | p in c.productCategories && p.1 == x && Published(c, store, scope.market, p.0) :: p.0;
    hide Reachable, Direct;
  }

  // ---- The canonical listing and the selectors.

  /** The canonical listing of a product is an eligible one, and every other eligible one
      was created earlier, or at the same time with a smaller identifier. */
  lemma CanonicalIsNewest(c: Catalog, store: Id, market: string, product: Id, id: Id)
    ensures Canonical(c, store, market, product, id) <==>
      && Eligible(c, store, market, product, id)
      && forall o: Id :: Eligible(c, store, market, product, o) && o != id ==>
           c.listings[o].createdAt < c.listings[id].createdAt || (c.listings[o].createdAt == c.listings[id].createdAt && o < id)
  {
  }

  /** No store is selected for nothing: it lists the SKU's product, and for a stock row or a
      location the listing sells from the row's source. */
  lemma SelectedStoresList(c: Catalog, snaps: Snapshots, inv: Id, sku: Id, location: Id, store: Id)
    ensures store in StoresBySku(c, sku) ==> exists id :: Lists(c, store, sku, id)
    ensures store in StoresByInventorySnapshot(c, snaps, inv) ==>
      inv in snaps && exists id :: Lists(c, store, snaps[inv].sku, id) && SameOwner(c, id, snaps[inv].location)
    ensures store in StoresByFulfillmentLocation(c, snaps, location) ==>
      exists id, k :: k in snaps && snaps[k].location == location && Lists(c, store, snaps[k].sku, id) && SameOwner(c, id, location)
  {
    if store in StoresBySku(c, sku) {
      var id :| id in c.listings && SkuOf(c, c.listings[id].product, sku) && c.listings[id].store == store;
      assert Lists(c, store, sku, id);
    }
    if store in StoresByInventorySnapshot(c, snaps, inv) {
      var id :| id in c.listings && inv in snaps && Serves(c, snaps[inv], c.listings[id]) && c.listings[id].store == store;
      assert Lists(c, store, snaps[inv].sku, id) && SameOwner(c, id, snaps[inv].location);
    }
    if store in StoresByFulfillmentLocation(c, snaps, location) {
      var id, k :| id in c.listings && k in snaps && snaps[k].location == location && Serves(c, snaps[k], c.listings[id]) && c.listings[id].store == store;
      assert Lists(c, store, snaps[k].sku, id) && SameOwner(c, id, location);
    }
  }

  ghost predicate Lists(c: Catalog, store: Id, sku: Id, id: Id) {
    && id in c.listings && c.listings[id].store == store
    && sku in c.skus && c.skus[sku].variant in c.variants && c.variants[c.skus[sku].variant].product == c.listings[id].product
  }

  ghost predicate SameOwner(c: Catalog, id: Id, location: Id) {
    && id in c.listings && location in c.locations
    && var loc := c.locations[location];
    && (c.listings[id].offer.None? ==> loc.store == Some(c.listings[id].store) && loc.supplier.None?)
    && (c.listings[id].offer.Some? ==>
          c.listings[id].offer.value in c.offers && loc.store.None? && loc.supplier == Some(c.offers[c.listings[id].offer.value].supplier))
  }

  // ---- The answers of the public reads.

  /** A public read answers what checkout could do: a SKU or a product is in stock exactly
      when a unit of it could be allocated, and the tree is that of the published products. */
  lemma AnswersExact(t: Tables, store: Id, market: string, scope: Scope, product: Id, sku: Id)
    ensures Cache.Out(t, store, Cache.SkuAvailability(market, product, sku)) ==
      Cache.Bit(exists id :: Sells(t.catalog, store, market, product, sku, id) && Allocatable(t.catalog, t.snapshots, store, market, sku, id))
    ensures Cache.Out(t, store, Cache.ProductAvailability(market, product)) ==
      Cache.Bit(exists k, id :: Sells(t.catalog, store, market, product, k, id) && Allocatable(t.catalog, t.snapshots, store, market, k, id))
    ensures var a := Cache.Out(t, store, Cache.TreeOf(scope));
      a.Nodes? && forall x: Id :: x in a.tree <==> Above(t.catalog, store, scope.market, x)
  {
    hide Sells, Allocatable, Climbs, Stocked, SkuInStock, InStock, PublicTree;
    SkuInStockExact(t.catalog, t.snapshots, store, market, product, sku);
    InStockExact(t.catalog, t.snapshots, store, market, product);
    forall x: Id ensures x in PublicTree(t.catalog, store, scope) <==> Above(t.catalog, store, scope.market, x) {
      TreeExact(t.catalog, store, scope, x);
    }
  }
}
