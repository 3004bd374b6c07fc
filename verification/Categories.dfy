/** The public category tree and its invalidation
    (modules/storefront/catalog_repository.go:187-221, modules/commerce/storefront_revision.go:90-103). */
module Categories {
  import opened Base
  import opened Records
  import opened Catalogue
  import opened Closure

  function ParentEdges(c: Catalog): Edges {
    set x | x in c.categories && c.categories[x].parent.Some? :: (x, c.categories[x].parent.value)
  }

  ghost predicate Listed(c: Catalog, store: Id, market: string, product: Id) {
    exists id :: Canonical(c, store, market, product, id)
  }

  /** Products the store publishes in a category. */
  ghost function PublicProducts(c: Catalog, store: Id, market: string, category: Id): set<Id> {
    set p | p in c.productCategories && p.1 == category && Listed(c, store, market, p.0) :: p.0
  }

  /** CTE direct: active categories with at least one public product. */
  ghost function Direct(c: Catalog, store: Id, market: string): set<Id> {
    set x | x in c.categories && c.categories[x].active && PublicProducts(c, store, market, x) != {}
  }

  datatype Node = Node(slug: string, name: string, parentSlug: string, productCount: nat)

  datatype Scope = Scope(market: string, locale: string, fallback: string)

  function LocalName(c: Catalog, scope: Scope, x: Id): string
    requires x in c.categories
  {
    if (x, scope.locale) in c.categoryNames then c.categoryNames[(x, scope.locale)]
    else if (x, scope.fallback) in c.categoryNames then c.categoryNames[(x, scope.fallback)]
    else c.categories[x].slug
  }

  function ParentSlug(c: Catalog, x: Id): string
    requires x in c.categories
  {
    var p := c.categories[x].parent;
    if p.Some? && p.value in c.categories && c.categories[p.value].active then c.categories[p.value].slug else ""
  }

  ghost function NodeOf(c: Catalog, store: Id, scope: Scope, x: Id): Node
    requires x in c.categories
  {
    Node(c.categories[x].slug, LocalName(c, scope, x), ParentSlug(c, x),
         if c.categories[x].active then |PublicProducts(c, store, scope.market, x)| else 0)
  }

  ghost function TreeIds(c: Catalog, store: Id, market: string): set<Id> {
    Reachable(ParentEdges(c), Direct(c, store, market))
  }

  /** publicCategoryTree for one store and request scope. */
  ghost function PublicTree(c: Catalog, store: Id, scope: Scope): map<Id, Node> {
    map x | x in TreeIds(c, store, scope.market) && x in c.categories && c.categories[x].active
      :: NodeOf(c, store, scope, x)
  }

  function Subtree(c: Catalog, k: Id): set<Id> {
    Reachable(Reversed(ParentEdges(c)), {k})
  }

  /** revisionStoresByCategorySubtree. */
  function StoresByCategorySubtree(c: Catalog, k: Id): set<Id> {
    set id, x | id in c.listings && x in Subtree(c, k) && (c.listings[id].product, x) in c.productCategories &&
                c.listings[id].store in c.stores
      :: c.listings[id].store
  }

  /** UpdateCategory and UpdateCategoryStatus rewrite one row. */
  function WriteCategory(c: Catalog, k: Id, row: Category): Catalog {
    if k in c.categories then c.(categories := c.categories[k := row]) else c
  }

  /** d is c with at most the row of category k changed. */
  ghost predicate Rewrites(c: Catalog, d: Catalog, k: Id) {
    && d == c.(categories := d.categories)
    && d.categories.Keys == c.categories.Keys
    && forall x: Id :: x in c.categories && x != k ==> c.categories[x] == d.categories[x]
  }

  lemma WriteRewrites(c: Catalog, d: Catalog, k: Id, row: Category)
    requires d == WriteCategory(c, k, row)
    ensures Rewrites(c, d, k) && (k in c.categories ==> d.categories[k] == row)
  {
    if k in c.categories {
      var m := c.categories[k := row];
      assert d.categories == m;
      assert m.Keys == c.categories.Keys;
    }
  }

  lemma SubtreeIsLed(c: Catalog, k: Id, x: Id)
    ensures x in Subtree(c, k) <==> Leads(ParentEdges(c), x, k)
  {
    ReachableIsLed(Reversed(ParentEdges(c)), {k});
    ReverseDual(ParentEdges(c), x, k);
  }

  /** The store lists a product of category x, and parents lead from x to k. */
  ghost predicate ListsBelow(c: Catalog, store: Id, k: Id, listing: Id, x: Id) {
    && listing in c.listings && c.listings[listing].store == store
    && (c.listings[listing].product, x) in c.productCategories && Leads(ParentEdges(c), x, k)
  }

  /** A write to category k selects exactly the stores that list a product of k or of a
      category under it, whatever state listing, product and category are in. */
  lemma SelectorExact(c: Catalog, k: Id, store: Id)
    ensures store in StoresByCategorySubtree(c, k) <==> store in c.stores && exists id: Id, x: Id :: ListsBelow(c, store, k, id, x)
  {
    forall x: Id { SubtreeIsLed(c, k, x); }
    if store in StoresByCategorySubtree(c, k) {
      var id: Id, x: Id :| id in c.listings && x in Subtree(c, k) && (c.listings[id].product, x) in c.productCategories &&
        c.listings[id].store in c.stores && c.listings[id].store == store;
      assert ListsBelow(c, store, k, id, x);
    }
    if store in c.stores && exists id: Id, x: Id :: ListsBelow(c, store, k, id, x) {
      var id: Id, x: Id :| ListsBelow(c, store, k, id, x);
      assert x in Subtree(c, k);
    }
  }

  lemma EdgeOf(c: Catalog, x: Id, y: Id)
    ensures (x, y) in ParentEdges(c) <==> x in c.categories && c.categories[x].parent == Some(y)
  {
  }

  lemma EdgesAgreeOff(c: Catalog, d: Catalog, k: Id)
    requires Rewrites(c, d, k)
    ensures AgreeOff(ParentEdges(c), ParentEdges(d), k)
  {
    forall x: Id, y: Id | x != k ensures (x, y) in ParentEdges(c) <==> (x, y) in ParentEdges(d) {
      EdgeOf(c, x, y);
      EdgeOf(d, x, y);
    }
  }

  /** The descendants of k do not depend on the row of k, so the selector may run
      before or after the write. */
  lemma SubtreeUnchanged(c: Catalog, d: Catalog, k: Id)
    requires Rewrites(c, d, k)
    ensures Subtree(d, k) == Subtree(c, k)
  {
    EdgesAgreeOff(c, d, k);
    var e, f := ParentEdges(c), ParentEdges(d);
    forall x ensures x in Subtree(d, k) <==> x in Subtree(c, k) {
      SubtreeIsLed(c, k, x);
      SubtreeIsLed(d, k, x);
      if Leads(e, x, k) { var p :| PathFrom(e, x, k, p); ReachingUnchanged(e, f, k, x, p); }
      if Leads(f, x, k) { var p :| PathFrom(f, x, k, p); ReachingUnchanged(f, e, k, x, p); }
    }
  }

  lemma SelectorUnchanged(c: Catalog, d: Catalog, k: Id)
    requires Rewrites(c, d, k)
    ensures StoresByCategorySubtree(d, k) == StoresByCategorySubtree(c, k)
  {
    SubtreeUnchanged(c, d, k);
  }

  lemma ListedUnchanged(c: Catalog, d: Catalog, k: Id, store: Id, market: string, product: Id)
    requires Rewrites(c, d, k)
    ensures Listed(d, store, market, product) == Listed(c, store, market, product)
  {
    assert forall id :: Eligible(c, store, market, product, id) <==> Eligible(d, store, market, product, id);
    assert forall id :: Canonical(c, store, market, product, id) <==> Canonical(d, store, market, product, id);
  }

  lemma ProductsUnchanged(c: Catalog, d: Catalog, k: Id, store: Id, market: string, x: Id)
    requires Rewrites(c, d, k)
    ensures PublicProducts(d, store, market, x) == PublicProducts(c, store, market, x)
  {
    forall p { ListedUnchanged(c, d, k, store, market, p); }
  }

  lemma ListsSubtree(c: Catalog, k: Id, store: Id, market: string, x: Id, p: Id)
    requires x in Subtree(c, k) && p in PublicProducts(c, store, market, x)
    ensures store in StoresByCategorySubtree(c, k)
  {
    var id :| Canonical(c, store, market, p, id);
    assert c.listings[id].store in StoresByCategorySubtree(c, k);
  }

  /** A store outside the selector publishes nothing in the subtree of k. */
  lemma NothingInSubtree(c: Catalog, k: Id, store: Id, market: string, x: Id)
    requires store !in StoresByCategorySubtree(c, k) && x in Subtree(c, k)
    ensures PublicProducts(c, store, market, x) == {}
  {
    if p :| p in PublicProducts(c, store, market, x) {
      ListsSubtree(c, k, store, market, x, p);
    }
  }

  lemma DirectUnchanged(c: Catalog, d: Catalog, k: Id, store: Id, market: string)
    requires Rewrites(c, d, k)
    requires store !in StoresByCategorySubtree(c, k)
    ensures Direct(d, store, market) == Direct(c, store, market)
  {
    SubtreeIsLed(c, k, k);
    LeadsSelf(ParentEdges(c), k);
    NothingInSubtree(c, k, store, market, k);
    forall x { ProductsUnchanged(c, d, k, store, market, x); }
  }

  /** No tree of such a store contains k, before or after the write. */
  lemma TreeAvoids(c: Catalog, k: Id, store: Id, market: string)
    requires store !in StoresByCategorySubtree(c, k)
    ensures forall d :: d in Direct(c, store, market) ==> !Leads(ParentEdges(c), d, k)
  {
    forall d | d in Direct(c, store, market) ensures !Leads(ParentEdges(c), d, k) {
      SubtreeIsLed(c, k, d);
      if d in Subtree(c, k) { NothingInSubtree(c, k, store, market, d); }
    }
  }

  lemma LedTransfers(e: Edges, f: Edges, k: Id, seeds: set<Id>, x: Id)
    requires AgreeOff(e, f, k) && LedFrom(e, seeds, x)
    requires forall d :: d in seeds ==> !Leads(e, d, k)
    ensures LedFrom(f, seeds, x) && x != k
  {
    var d :| d in seeds && Leads(e, d, x);
    var p :| PathFrom(e, d, x, p);
    AvoidingUnchanged(e, f, k, d, x, p);
  }

  lemma TreeIdsUnchanged(c: Catalog, d: Catalog, k: Id, store: Id, market: string)
    requires Rewrites(c, d, k)
    requires store !in StoresByCategorySubtree(c, k)
    ensures TreeIds(d, store, market) == TreeIds(c, store, market)
    ensures k !in TreeIds(c, store, market)
  {
    var e, f := ParentEdges(c), ParentEdges(d);
    EdgesAgreeOff(c, d, k);
    DirectUnchanged(c, d, k, store, market);
    SelectorUnchanged(c, d, k);
    TreeAvoids(c, k, store, market);
    TreeAvoids(d, k, store, market);
    var seeds := Direct(c, store, market);
    ReachableIsLed(e, seeds);
    ReachableIsLed(f, seeds);
    forall x ensures x in TreeIds(d, store, market) <==> x in TreeIds(c, store, market) {
      if LedFrom(e, seeds, x) { LedTransfers(e, f, k, seeds, x); }
      if LedFrom(f, seeds, x) { LedTransfers(f, e, k, seeds, x); }
    }
    if LedFrom(e, seeds, k) { LedTransfers(e, f, k, seeds, k); }
  }

  lemma ParentInTree(c: Catalog, store: Id, market: string, x: Id)
    requires x in TreeIds(c, store, market) && x in c.categories && c.categories[x].parent.Some?
    ensures c.categories[x].parent.value in TreeIds(c, store, market)
  {
    var e, seeds := ParentEdges(c), Direct(c, store, market);
    ReachableIsLed(e, seeds);
    var d :| d in seeds && Leads(e, d, x);
    LeadsStep(e, d, x, c.categories[x].parent.value);
  }

  lemma ParentSlugUnchanged(c: Catalog, d: Catalog, k: Id, x: Id)
    requires Rewrites(c, d, k)
    requires x in c.categories && x != k && c.categories[x].parent != Some(k)
    ensures x in d.categories
    ensures ParentSlug(d, x) == ParentSlug(c, x)
  {
  }

  lemma NodeUnchanged(c: Catalog, d: Catalog, k: Id, store: Id, scope: Scope, x: Id)
    requires Rewrites(c, d, k)
    requires k !in TreeIds(c, store, scope.market)
    requires x in TreeIds(c, store, scope.market) && x in c.categories
    ensures x in d.categories
    ensures NodeOf(d, store, scope, x) == NodeOf(c, store, scope, x)
  {
    if c.categories[x].parent.Some? {
      ParentInTree(c, store, scope.market, x);
    }
    ParentSlugUnchanged(c, d, k, x);
    ProductsUnchanged(c, d, k, store, scope.market, x);
  }

  lemma TreeRowUnchanged(c: Catalog, d: Catalog, k: Id, store: Id, scope: Scope, x: Id)
    requires Rewrites(c, d, k)
    requires k !in TreeIds(c, store, scope.market)
    requires TreeIds(d, store, scope.market) == TreeIds(c, store, scope.market)
    ensures x in PublicTree(d, store, scope) <==> x in PublicTree(c, store, scope)
    ensures x in PublicTree(c, store, scope) ==> PublicTree(d, store, scope)[x] == PublicTree(c, store, scope)[x]
  {
    if x in TreeIds(c, store, scope.market) && x in c.categories {
      NodeUnchanged(c, d, k, store, scope, x);
    }
  }

  lemma TreeUnchanged(c: Catalog, d: Catalog, k: Id, store: Id, scope: Scope)
    requires Rewrites(c, d, k)
    requires store !in StoresByCategorySubtree(c, k)
    ensures PublicTree(d, store, scope) == PublicTree(c, store, scope)
  {
    TreeIdsUnchanged(c, d, k, store, scope.market);
    forall x: Id { TreeRowUnchanged(c, d, k, store, scope, x); }
  }

  /** Category invalidation is complete: for any category graph, cycles included, every
      store whose public tree changes when category k is rewritten is in k's selector,
      whether the selector runs before or after the write. */
  lemma CategoryWriteCovered(c: Catalog, k: Id, row: Category, store: Id, scope: Scope)
    requires PublicTree(WriteCategory(c, k, row), store, scope) != PublicTree(c, store, scope)
    ensures store in StoresByCategorySubtree(c, k)
    ensures StoresByCategorySubtree(WriteCategory(c, k, row), k) == StoresByCategorySubtree(c, k)
  {
    var d := WriteCategory(c, k, row);
    WriteRewrites(c, d, k, row);
    SelectorUnchanged(c, d, k);
    if store !in StoresByCategorySubtree(c, k) {
      TreeUnchanged(c, d, k, store, scope);
    }
  }
}
