/** The storefront cache generation works like a seqlock (internal/coreapi/storefront.go:76-93,
    modules/commerce/storefront_revision.go, modules/storefront/revision.go). */
module Cache {
  import opened Base
  import opened Records
  import opened Tables
  import opened Catalogue
  import opened Categories
  import opened Runs
  import Closure

  // ---- Public output.

  datatype Query =
    | TreeOf(scope: Scope)
    | SkuAvailability(market: string, product: Id, sku: Id)
    | ProductAvailability(market: string, product: Id)

  datatype Answer = Nodes(tree: map<Id, Node>) | Bit(inStock: bool)

  /** What one statement of a public read returns. */
  ghost function Out(t: Tables, store: Id, q: Query): Answer {
    match q
    case TreeOf(scope) => Nodes(PublicTree(t.catalog, store, scope))
    case SkuAvailability(market, product, sku) => Bit(SkuInStock(t.catalog, t.snapshots, store, market, product, sku))
    case ProductAvailability(market, product) => Bit(InStock(t.catalog, t.snapshots, store, market, product))
  }

  function StorefrontRevision(t: Tables, store: Id): nat {
    Revision(t.revisions, store)
  }

  /** A transaction that moves public output moves the generation in the same commit, and
      no transaction moves it back. */
  ghost predicate Honest(t: Tables, t': Tables, store: Id, q: Query) {
    && StorefrontRevision(t, store) <= StorefrontRevision(t', store)
    && (Out(t, store, q) != Out(t', store, q) ==> StorefrontRevision(t, store) < StorefrontRevision(t', store))
  }

  // ---- The protocol.

  /** Committed states, one after the other, every commit honest to the store's readers. */
  ghost predicate HonestHistory(states: seq<Tables>, store: Id, asked: iset<Query>) {
    forall i, q :: 0 <= i < |states| - 1 && q in asked ==> Honest(states[i], states[i + 1], store, q)
  }

  lemma {:induction false} RevisionsGrow(states: seq<Tables>, store: Id, asked: iset<Query>, i: nat, j: nat, q: Query)
    requires HonestHistory(states, store, asked) && q in asked && i <= j < |states|
    ensures StorefrontRevision(states[i], store) <= StorefrontRevision(states[j], store)
    decreases j
  {
    if i < j {
      RevisionsGrow(states, store, asked, i, j - 1, q);
      assert Honest(states[j - 1], states[j - 1 + 1], store, q);
    }
  }

  lemma {:induction false} SameRevisionSameOutput(states: seq<Tables>, store: Id, asked: iset<Query>, i: nat,
      j: nat, q: Query)
    requires HonestHistory(states, store, asked) && q in asked && i <= j < |states|
    requires StorefrontRevision(states[i], store) == StorefrontRevision(states[j], store)
    ensures Out(states[i], store, q) == Out(states[j], store, q)
    decreases j
  {
    if i < j {
      RevisionsGrow(states, store, asked, i, j - 1, q);
      assert Honest(states[j - 1], states[j - 1 + 1], store, q);
      SameRevisionSameOutput(states, store, asked, i, j - 1, q);
    }
  }

  /** A payload assembled by several statements, each in its own state; a later statement
      may depend on earlier answers, as ProductBySlug does. */
  type Reader = seq<Answer> -> Option<Query>

  ghost predicate Filling(states: seq<Tables>, store: Id, asked: iset<Query>, reader: Reader, from: nat,
      times: seq<nat>, payload: seq<Answer>) {
    && |times| == |payload|
    && (forall j :: 0 <= j < |times| ==> from <= times[j] < |states|)
    && (forall j :: 0 <= j < |payload| ==> reader(payload[..j]).Some? && reader(payload[..j]).value in asked)
    && (forall j :: 0 <= j < |payload| ==> payload[j] == Out(states[times[j]], store, reader(payload[..j]).value))
  }

  /** The payload is complete. */
  ghost predicate Fills(states: seq<Tables>, store: Id, asked: iset<Query>, reader: Reader, from: nat,
      times: seq<nat>, payload: seq<Answer>) {
    Filling(states, store, asked, reader, from, times, payload) && reader(payload).None?
  }

  lemma FillingStays(states: seq<Tables>, more: seq<Tables>, store: Id, asked: iset<Query>, reader: Reader,
      from: nat, times: seq<nat>, payload: seq<Answer>)
    requires Filling(states, store, asked, reader, from, times, payload) && states <= more
    ensures Filling(more, store, asked, reader, from, times, payload)
  {
    forall j | 0 <= j < |payload| ensures payload[j] == Out(more[times[j]], store, reader(payload[..j]).value) {
      assert states[times[j]] == more[times[j]];
    }
  }

  lemma FillingGrows(states: seq<Tables>, store: Id, asked: iset<Query>, reader: Reader, from: nat,
      times: seq<nat>, payload: seq<Answer>, answer: Answer)
    requires Filling(states, store, asked, reader, from, times, payload) && from < |states|
    requires reader(payload).Some? && reader(payload).value in asked && answer == Out(states[|states| - 1], store, reader(payload).value)
    ensures Filling(states, store, asked, reader, from, times + [|states| - 1], payload + [answer])
  {
    var grown := payload + [answer];
    assert forall j :: 0 <= j <= |payload| ==> grown[..j] == payload[..j];
    assert payload[..|payload|] == payload;
  }

  /** The same reader run against one state. */
  ghost predicate IsOutput(t: Tables, store: Id, reader: Reader, payload: seq<Answer>) {
    && (forall j :: 0 <= j < |payload| ==> reader(payload[..j]).Some? && payload[j] == Out(t, store, reader(payload[..j]).value))
    && reader(payload).None?
  }

  /** A payload labelled r whose fill finished before a probe that returns r is exactly the
      store's public output at the probe, although it came from several statements. */
  lemma CachedPayloadIsCurrent(
    states: seq<Tables>, store: Id, asked: iset<Query>, reader: Reader, stamp: nat, times: seq<nat>, payload: seq<Answer>, probe: nat)
    requires HonestHistory(states, store, asked) && stamp <= probe < |states|
    requires Fills(states, store, asked, reader, stamp, times, payload)
    requires forall j :: 0 <= j < |times| ==> times[j] <= probe
    requires StorefrontRevision(states[stamp], store) == StorefrontRevision(states[probe], store)
    ensures IsOutput(states[probe], store, reader, payload)
  {
    forall j | 0 <= j < |payload| ensures payload[j] == Out(states[probe], store, reader(payload[..j]).value) {
      var q := reader(payload[..j]).value;
      RevisionsGrow(states, store, asked, stamp, times[j], q);
      RevisionsGrow(states, store, asked, times[j], probe, q);
      SameRevisionSameOutput(states, store, asked, times[j], probe, q);
    }
  }

  /** A fill that overlaps the probe is never older than the probe: each answer is the
      store's output at the later of its own statement and the probe. */
  lemma OverlappingFillIsNotOlder(
    states: seq<Tables>, store: Id, asked: iset<Query>, reader: Reader, stamp: nat, times: seq<nat>, payload: seq<Answer>, probe: nat, j: nat)
    requires HonestHistory(states, store, asked) && stamp <= probe < |states|
    requires Fills(states, store, asked, reader, stamp, times, payload) && j < |payload|
    requires StorefrontRevision(states[stamp], store) == StorefrontRevision(states[probe], store)
    ensures payload[j] == Out(states[if times[j] < probe then probe else times[j]], store, reader(payload[..j]).value)
  {
    var q := reader(payload[..j]).value;
    if times[j] < probe {
      RevisionsGrow(states, store, asked, stamp, times[j], q);
      RevisionsGrow(states, store, asked, times[j], probe, q);
      SameRevisionSameOutput(states, store, asked, times[j], probe, q);
    }
  }

  // ---- The writers.

  /** UpdateCategory and UpdateCategoryStatus: rewrite the row, then bump. */
  function UpdateCategory(t: Tables, k: Id, slug: string, active: bool, parent: Option<Id>): (Tables, Result<bool>) {
    if k == NO_ID || slug == "" then (t, Err(InvalidInput))
    else if k in t.catalog.categories && parent.Some? && parent.value !in t.catalog.categories then (t, Err(InvalidInput))
    else
      var c := WriteCategory(t.catalog, k, Category(parent, slug, active));
      (Bump(t.(catalog := c), StoresByCategorySubtree(c, k)), Ok(true))
  }

  function UpdateCategoryStatus(t: Tables, k: Id, active: bool): (Tables, Result<bool>) {
    if k == NO_ID then (t, Err(InvalidInput))
    else
      var c := if k in t.catalog.categories then WriteCategory(t.catalog, k, t.catalog.categories[k].(active := active)) else t.catalog;
      (Bump(t.(catalog := c), StoresByCategorySubtree(c, k)), Ok(true))
  }

  function UpdateFulfillmentLocationStatus(t: Tables, location: Id, active: bool): (Tables, Result<bool>) {
    if location == NO_ID then (t, Err(InvalidInput))
    else
      var c := if location in t.catalog.locations then
                 t.catalog.(locations := t.catalog.locations[location := t.catalog.locations[location].(active := active)])
               else t.catalog;
      (Bump(t.(catalog := c), StoresByFulfillmentLocation(c, t.snapshots, location)), Ok(true))
  }

  lemma BumpedRevision(t: Tables, stores: set<Id>, store: Id)
    ensures StorefrontRevision(Bump(t, stores), store) == StorefrontRevision(t, store) + if store in stores then 1 else 0
  {
    BumpAdvances(t.revisions, stores, store);
  }

  /** How a stock writer leaves the tables: one row of stock and the selector's bumps. */
  ghost predicate StockWrite(t: Tables, t': Tables, id: Id, stores: set<Id>) {
    && t'.catalog == t.catalog && t'.revisions == Bumped(t.revisions, stores)
    && id in t'.snapshots && t'.snapshots == t.snapshots[id := t'.snapshots[id]]
    && (id in t.snapshots ==>
          && t'.snapshots[id].sku == t.snapshots[id].sku && t'.snapshots[id].location == t.snapshots[id].location
          && stores == StoresByInventorySnapshot(t.catalog, t.snapshots, id))
    && (id !in t.snapshots ==> stores == StoresBySku(t.catalog, t'.snapshots[id].sku))
  }

  lemma StockWriteHonest(t: Tables, t': Tables, id: Id, stores: set<Id>, store: Id, q: Query)
    requires StockWrite(t, t', id, stores)
    ensures Honest(t, t', store, q)
    ensures store !in stores ==> Out(t, store, q) == Out(t', store, q) && StorefrontRevision(t', store) == StorefrontRevision(t, store)
  {
    hide SkuInStock, PublicTree;
    BumpAdvances(t.revisions, stores, store);
    match q {
      case TreeOf(scope) =>
      case SkuAvailability(market, product, sku) => SkuBitCovered(t, t', id, stores, store, market, product, sku);
      case ProductAvailability(market, product) =>
        forall sku: Id { SkuBitCovered(t, t', id, stores, store, market, product, sku); }
    }
  }

  lemma SkuBitCovered(t: Tables, t': Tables, id: Id, stores: set<Id>, store: Id, market: string, product: Id, sku: Id)
    requires StockWrite(t, t', id, stores)
    ensures store in stores ||
      SkuInStock(t.catalog, t.snapshots, store, market, product, sku) == SkuInStock(t'.catalog, t'.snapshots, store, market, product, sku)
  {
    hide SkuInStock;
    if SkuInStock(t.catalog, t.snapshots, store, market, product, sku) != SkuInStock(t'.catalog, t'.snapshots, store, market, product, sku) {
      if id in t.snapshots {
        SnapshotWriteCovered(t.catalog, t.snapshots, id, t'.snapshots[id], store, market, product, sku);
      } else {
        SnapshotInsertCovered(t.catalog, t.snapshots, id, t'.snapshots[id], store, market, product, sku);
      }
    }
  }

  lemma StockWriterSelects(t: Tables, id: Id, c: StockCommand)
    ensures StockStep(t, id, c) == t || exists stores :: StockWrite(t, StockStep(t, id, c), id, stores)
  {
    var t' := StockStep(t, id, c);
    match c {
      case NewSnapshot(location, sku, onHand) =>
        if t' != t { assert StockWrite(t, t', id, StoresBySku(t.catalog, sku)); }
      case Adjust(delta, movementType) =>
        if t' != t { assert StockWrite(t, t', id, StoresByInventorySnapshot(t.catalog, t.snapshots, id)); }
      case Reserve(quantity, token, reservation, expiresAt) =>
        if t' != t { assert StockWrite(t, t', id, StoresByInventorySnapshot(t.catalog, t.snapshots, id)); }
    }
  }

  /** Creating, adjusting or reserving stock is honest to every reader of every store. */
  lemma StockWritersAreHonest(t: Tables, id: Id, c: StockCommand, store: Id, q: Query)
    ensures Honest(t, StockStep(t, id, c), store, q)
  {
    hide StockStep, Out, StockWrite;
    StockWriterSelects(t, id, c);
    var t' := StockStep(t, id, c);
    if t' != t {
      var stores :| StockWrite(t, t', id, stores);
      StockWriteHonest(t, t', id, stores, store, q);
    }
  }

  // ---- Category writers.

  lemma CategoriesDoNotStock(c: Catalog, d: Catalog, k: Id, snaps: map<Id, Snapshot>, store: Id, market: string,
      product: Id, sku: Id)
    requires Rewrites(c, d, k)
    ensures SkuInStock(c, snaps, store, market, product, sku) == SkuInStock(d, snaps, store, market, product, sku)
  {
    assert forall id: Id :: Eligible(c, store, market, product, id) <==> Eligible(d, store, market, product, id);
    assert forall id: Id :: Canonical(c, store, market, product, id) <==> Canonical(d, store, market, product, id);
    assert forall id: Id, inv: Id :: ShowsStock(c, snaps, store, market, product, sku, id, inv) <==> ShowsStock(d, snaps, store, market, product, sku, id, inv);
  }

  lemma CategoryWriteHonest(t: Tables, t': Tables, k: Id, row: Category, store: Id, q: Query)
    requires t' == Bump(t.(catalog := WriteCategory(t.catalog, k, row)), StoresByCategorySubtree(WriteCategory(t.catalog, k, row), k))
    ensures Honest(t, t', store, q)
    ensures store !in StoresByCategorySubtree(t.catalog, k) ==>
      Out(t, store, q) == Out(t', store, q) && StorefrontRevision(t', store) == StorefrontRevision(t, store)
  {
    hide SkuInStock, PublicTree, StoresByCategorySubtree, WriteCategory, Rewrites;
    var c, d := t.catalog, WriteCategory(t.catalog, k, row);
    WriteRewrites(c, d, k, row);
    SelectorUnchanged(c, d, k);
    BumpAdvances(t.revisions, StoresByCategorySubtree(d, k), store);
    match q {
      case TreeOf(scope) =>
        if PublicTree(d, store, scope) != PublicTree(c, store, scope) { CategoryWriteCovered(c, k, row, store, scope); }
      case SkuAvailability(market, product, sku) => CategoriesDoNotStock(c, d, k, t.snapshots, store, market, product, sku);
      case ProductAvailability(market, product) =>
        forall sku: Id { CategoriesDoNotStock(c, d, k, t.snapshots, store, market, product, sku); }
    }
  }

  /** Any rewrite of a category row is honest to every reader, in any category graph. */
  lemma CategoryWritersAreHonest(t: Tables, k: Id, slug: string, active: bool, parent: Option<Id>, store: Id, q: Query)
    ensures Honest(t, UpdateCategory(t, k, slug, active, parent).0, store, q)
    ensures Honest(t, UpdateCategoryStatus(t, k, active).0, store, q)
  {
    hide Out, WriteCategory, StoresByCategorySubtree;
    if UpdateCategory(t, k, slug, active, parent).1.Ok? {
      CategoryWriteHonest(t, UpdateCategory(t, k, slug, active, parent).0, k, Category(parent, slug, active), store, q);
    }
    if k in t.catalog.categories {
      if k != NO_ID {
        CategoryWriteHonest(t, UpdateCategoryStatus(t, k, active).0, k, t.catalog.categories[k].(active := active), store, q);
      }
    } else {
      BumpHonest(t, StoresByCategorySubtree(t.catalog, k), store, q);
    }
  }

  lemma BumpHonest(t: Tables, stores: set<Id>, store: Id, q: Query)
    ensures Honest(t, Bump(t, stores), store, q)
  {
    hide SkuInStock, PublicTree, InStock;
    BumpedRevision(t, stores, store);
  }

  // ---- Location status.

  lemma LocationsDoNotShapeTrees(c: Catalog, d: Catalog, store: Id, scope: Scope)
    requires d == c.(locations := d.locations)
    ensures PublicTree(d, store, scope) == PublicTree(c, store, scope)
  {
    hide Closure.Reachable;
    forall p: Id ensures Listed(d, store, scope.market, p) == Listed(c, store, scope.market, p) {
      assert forall id: Id :: Eligible(c, store, scope.market, p, id) <==> Eligible(d, store, scope.market, p, id);
      assert forall id: Id :: Canonical(c, store, scope.market, p, id) <==> Canonical(d, store, scope.market, p, id);
    }
    assert forall x: Id :: PublicProducts(d, store, scope.market, x) == PublicProducts(c, store, scope.market, x);
    assert Direct(d, store, scope.market) == Direct(c, store, scope.market);
    assert ParentEdges(d) == ParentEdges(c);
  }

  lemma LocationSelectorUnchanged(c: Catalog, d: Catalog, snaps: map<Id, Snapshot>, location: Id)
    requires OnlyLocationStatus(c, d, location)
    ensures StoresByFulfillmentLocation(d, snaps, location) == StoresByFulfillmentLocation(c, snaps, location)
  {
    assert forall id: Id, inv: Id | id in c.listings && inv in snaps ::
      Serves(c, snaps[inv], c.listings[id]) <==> Serves(d, snaps[inv], c.listings[id]);
  }

  lemma LocationBitCovered(c: Catalog, d: Catalog, snaps: map<Id, Snapshot>, location: Id, store: Id,
      market: string, product: Id, sku: Id)
    requires OnlyLocationStatus(c, d, location)
    ensures store in StoresByFulfillmentLocation(c, snaps, location) ||
      SkuInStock(c, snaps, store, market, product, sku) == SkuInStock(d, snaps, store, market, product, sku)
  {
    hide SkuInStock, StoresByFulfillmentLocation;
    if SkuInStock(c, snaps, store, market, product, sku) && !SkuInStock(d, snaps, store, market, product, sku) {
      LocationMoved(c, d, snaps, location, store, market, product, sku);
    } else if SkuInStock(d, snaps, store, market, product, sku) && !SkuInStock(c, snaps, store, market, product, sku) {
      LocationMoved(d, c, snaps, location, store, market, product, sku);
    }
  }

  /** Opening or closing a fulfillment location is honest to every reader. */
  lemma LocationWriterIsHonest(t: Tables, location: Id, active: bool, store: Id, q: Query)
    ensures Honest(t, UpdateFulfillmentLocationStatus(t, location, active).0, store, q)
  {
    var t' := UpdateFulfillmentLocationStatus(t, location, active).0;
    var c, d := t.catalog, t'.catalog;
    if location == NO_ID {
    } else if location !in c.locations {
      BumpHonest(t, StoresByFulfillmentLocation(c, t.snapshots, location), store, q);
    } else {
      LocationSelectorUnchanged(c, d, t.snapshots, location);
      BumpAdvances(t.revisions, StoresByFulfillmentLocation(d, t.snapshots, location), store);
      hide SkuInStock, PublicTree, StoresByFulfillmentLocation;
      match q {
        case TreeOf(scope) => LocationsDoNotShapeTrees(c, d, store, scope);
        case SkuAvailability(market, product, sku) => LocationBitCovered(c, d, t.snapshots, location, store, market, product, sku);
        case ProductAvailability(market, product) =>
          forall sku: Id { LocationBitCovered(c, d, t.snapshots, location, store, market, product, sku); }
      }
    }
  }

  // ---- Histories of these writers.

  datatype PublicWrite =
    | StockWriter(snapshot: Id, command: StockCommand)
    | CategoryWriter(category: Id, slug: string, active: bool, parent: Option<Id>)
    | CategoryStatusWriter(category: Id, active: bool)
    | LocationStatusWriter(location: Id, active: bool)

  function Written(t: Tables, w: PublicWrite): Tables {
    match w
    case StockWriter(id, c) => StockStep(t, id, c)
    case CategoryWriter(k, slug, active, parent) => UpdateCategory(t, k, slug, active, parent).0
    case CategoryStatusWriter(k, active) => UpdateCategoryStatus(t, k, active).0
    case LocationStatusWriter(location, active) => UpdateFulfillmentLocationStatus(t, location, active).0
  }

  lemma WriterIsHonest(t: Tables, w: PublicWrite, store: Id, q: Query)
    ensures Honest(t, Written(t, w), store, q)
  {
    hide Honest, StockStep, UpdateCategory, UpdateCategoryStatus, UpdateFulfillmentLocationStatus;
    match w {
      case StockWriter(id, c) => StockWritersAreHonest(t, id, c, store, q);
      case CategoryWriter(k, slug, active, parent) => CategoryWritersAreHonest(t, k, slug, active, parent, store, q);
      case CategoryStatusWriter(k, active) => CategoryWritersAreHonest(t, k, "", active, None, store, q);
      case LocationStatusWriter(location, active) => LocationWriterIsHonest(t, location, active, store, q);
    }
  }

  /** Every commit since the first state is one of these writers. */
  ghost predicate WrittenHistory(states: seq<Tables>) {
    forall i :: 0 <= i < |states| - 1 ==> IsWritten(states[i], states[i + 1])
  }

  ghost predicate IsWritten(t: Tables, t': Tables) {
    exists w :: t' == Written(t, w)
  }

  lemma HistoryGrows(states: seq<Tables>, w: PublicWrite)
    requires states != [] && WrittenHistory(states)
    ensures WrittenHistory(states + [Written(states[|states| - 1], w)])
  {
    var grown := states + [Written(states[|states| - 1], w)];
    hide Written;
    forall i | 0 <= i < |grown| - 1 ensures IsWritten(grown[i], grown[i + 1]) {
      assert i < |states| - 1 ==> IsWritten(states[i], states[i + 1]);
    }
  }

  lemma WrittenIsHonest(states: seq<Tables>, store: Id, asked: iset<Query>)
    requires WrittenHistory(states)
    ensures HonestHistory(states, store, asked)
  {
    forall i, q | 0 <= i < |states| - 1 && q in asked ensures Honest(states[i], states[i + 1], store, q) {
      assert IsWritten(states[i], states[i + 1]);
      var w :| states[i + 1] == Written(states[i], w);
      WriterIsHonest(states[i], w, store, q);
    }
  }

  /** Labels never run backwards, and equal labels mean equal output. */
  lemma LabelsMeanOutput(states: seq<Tables>, store: Id)
    requires states != [] && WrittenHistory(states)
    ensures forall i :: 0 <= i < |states| ==> StorefrontRevision(states[i], store) <= StorefrontRevision(states[|states| - 1], store)
    ensures forall i, q :: 0 <= i < |states| && StorefrontRevision(states[i], store) == StorefrontRevision(states[|states| - 1], store) ==>
      Out(states[i], store, q) == Out(states[|states| - 1], store, q)
  {
    hide WrittenHistory, HonestHistory, Out, StorefrontRevision;
    forall i | 0 <= i < |states|
      ensures StorefrontRevision(states[i], store) <= StorefrontRevision(states[|states| - 1], store)
    {
      var q := ProductAvailability("", 0);
      WrittenIsHonest(states, store, iset{q});
      RevisionsGrow(states, store, iset{q}, i, |states| - 1, q);
    }
    forall i, q | 0 <= i < |states| && StorefrontRevision(states[i], store) == StorefrontRevision(states[|states| - 1], store)
      ensures Out(states[i], store, q) == Out(states[|states| - 1], store, q)
    {
      WrittenIsHonest(states, store, iset{q});
      SameRevisionSameOutput(states, store, iset{q}, i, |states| - 1, q);
    }
  }

  // ---- Serving.

  class Backend {
    /** How the database answers one statement; Valid ties it to what the SQL means. */
    const answer: (Tables, Id, Query) -> Answer
    /** Committed states in commit order; the last is the current one. */
    var states: seq<Tables>

    ghost predicate Valid()
      reads this
    {
      states != [] && WrittenHistory(states) && forall t, store, q :: answer(t, store, q) == Out(t, store, q)
    }

    constructor (t: Tables, answer: (Tables, Id, Query) -> Answer)
      requires forall t, store, q :: answer(t, store, q) == Out(t, store, q)
      ensures Valid() && states == [t]
    {
      states, this.answer := [t], answer;
    }

    method Commit(w: PublicWrite)
      requires Valid()
      modifies this
      ensures Valid() && states == old(states) + [Written(old(states)[|old(states)| - 1], w)]
    {
      HistoryGrows(states, w);
      states := states + [Written(states[|states| - 1], w)];
    }

    /** Any number of writers commit meanwhile. */
    method Meanwhile()
      requires Valid()
      modifies this
      ensures Valid() && old(states) <= states
    {
      var n: int :| 0 <= n;
      while n > 0
        invariant Valid() && old(states) <= states
        decreases n
      {
        var w: PublicWrite := *;
        Commit(w);
        n := n - 1;
      }
    }

    /** The probe: no label read earlier exceeds it, and the states labelled with it all
        answer every query as the current one does. */
    method RevisionFor(store: Id) returns (revision: nat)
      requires Valid()
      ensures revision == StorefrontRevision(states[|states| - 1], store)
      ensures forall i :: 0 <= i < |states| ==> StorefrontRevision(states[i], store) <= revision
      ensures forall i, q :: 0 <= i < |states| && StorefrontRevision(states[i], store) == revision ==>
        Out(states[i], store, q) == Out(states[|states| - 1], store, q)
    {
      hide WrittenHistory, Out, StorefrontRevision;
      LabelsMeanOutput(states, store);
      revision := StorefrontRevision(states[|states| - 1], store);
    }

    /** storefrontRead: the generation first, then the statements of the payload, at most
        limit of them; a failed or unfinished read discloses no generation. */
    method StorefrontRead(store: Id, reader: Reader, limit: nat, ghost asked: iset<Query>)
      returns (stamp: Option<nat>, payload: seq<Answer>, ghost from: nat, ghost times: seq<nat>)
      requires Valid() && forall q: Query :: q in asked
      modifies this
      ensures Valid() && old(states) <= states && |old(states)| - 1 <= from < |states|
      ensures stamp.Some? ==>
        && stamp.value == StorefrontRevision(states[from], store)
        && Fills(states, store, asked, reader, from, times, payload)
    {
      hide Out, Written, Filling, WrittenHistory, StorefrontRevision;
      Meanwhile();
      from, times, payload := |states| - 1, [], [];
      var revision := RevisionFor(store);
      NothingFilled(states, store, asked, reader, from);
      var i := 0;
      while i < limit && reader(payload).Some?
        invariant Valid() && old(states) <= states && |old(states)| - 1 <= from < |states|
        invariant revision == StorefrontRevision(states[from], store)
        invariant Filling(states, store, asked, reader, from, times, payload)
      {
        ghost var before := states;
        Meanwhile();
        FillingStays(before, states, store, asked, reader, from, times, payload);
        var next := answer(states[|states| - 1], store, reader(payload).value);
        FillingGrows(states, store, asked, reader, from, times, payload, next);
        payload, times := payload + [next], times + [|states| - 1];
        i := i + 1;
      }
      ghost var before := states;
      Meanwhile();
      FillingStays(before, states, store, asked, reader, from, times, payload);
      stamp := if reader(payload).None? then Some(revision) else None;
    }
  }

  lemma NothingFilled(states: seq<Tables>, store: Id, asked: iset<Query>, reader: Reader, from: nat)
    ensures Filling(states, store, asked, reader, from, [], [])
  {
  }
}
