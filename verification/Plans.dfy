/** What the least-id allocation rule can and cannot serve
    (modules/commerce/checkout_session.go:606-627, inventory_lifecycle.go:30-50). */
module Plans {
  import opened Base
  import opened Money
  import opened Records
  import opened Inventory
  import opened Checkout
  import opened Finalize
  import opened Acceptance
  import Amounts

  /** The choices give every line its whole quantity from one of its candidates, and take
      from no snapshot more than is available there. */
  ghost predicate Serves(lines: seq<Demand>, rows: map<Id, Snapshot>, choices: seq<Id>) {
    && |choices| == |lines|
    && (forall i :: 0 <= i < |lines| ==> lines[i].quantity > 0 && choices[i] in lines[i].candidates && choices[i] in rows)
    && (forall id :: id in choices && id in rows ==> Taken(lines, choices, id) <= rows[id].onHand - rows[id].reserved)
  }

  lemma PlanServes(lines: seq<Demand>, rows: map<Id, Snapshot>)
    requires Plan(lines, rows).Ok?
    ensures Serves(lines, rows, Plan(lines, rows).value)
  {
    var choices := Plan(lines, rows).value;
    PlanIsPlan(lines, rows);
    forall i | 0 <= i < |lines| ensures lines[i].quantity > 0 && choices[i] in lines[i].candidates && choices[i] in rows {
      assert PlannedAt(lines, rows, choices, i);
    }
    forall id | id in choices && id in rows { PlanSufficient(lines, rows, choices, id); }
  }

  // ---- No snapshot is wanted twice.

  ghost predicate Apart(lines: seq<Demand>) {
    forall i, j :: 0 <= i < j < |lines| ==> lines[i].candidates !! lines[j].candidates
  }

  /** Some candidate has the line's quantity, other lines aside. */
  ghost predicate Alone(line: Demand, rows: map<Id, Snapshot>) {
    line.quantity > 0 && exists id :: id in line.candidates && id in rows && line.quantity <= rows[id].onHand - rows[id].reserved
  }

  lemma {:induction false} TakesPart(lines: seq<Demand>, choices: seq<Id>, i: nat)
    requires |choices| <= |lines| && i < |choices| && forall k :: 0 <= k < |choices| ==> lines[k].quantity > 0
    ensures Taken(lines, choices, choices[i]) >= lines[i].quantity
  {
    var n := |choices| - 1;
    TakesNothingBack(lines, choices[..n], choices[i]);
    if i < n { TakesPart(lines, choices[..n], i); }
  }

  lemma {:induction false} TakesNothingBack(lines: seq<Demand>, choices: seq<Id>, id: Id)
    requires |choices| <= |lines| && forall k :: 0 <= k < |choices| ==> lines[k].quantity > 0
    ensures Taken(lines, choices, id) >= 0
  {
    if choices != [] { TakesNothingBack(lines, choices[..|choices| - 1], id); }
  }

  /** Lines that can be served each alone are planned together. */
  lemma {:induction false} ApartPlans(lines: seq<Demand>, rows: map<Id, Snapshot>)
    requires Apart(lines) && forall i :: 0 <= i < |lines| ==> Alone(lines[i], rows)
    ensures Plan(lines, rows).Ok?
  {
    if lines != [] {
      var n := |lines| - 1;
      var init := lines[..n];
      ApartPlans(init, rows);
      var c := Plan(init, rows).value;
      PlanServes(init, rows);
      AllocationExact(lines[n].candidates, rows, lines[n].quantity, TakenMap(init, c));
      assert Alone(lines[n], rows);
      var id :| id in lines[n].candidates && id in rows && lines[n].quantity <= rows[id].onHand - rows[id].reserved;
      assert forall k :: 0 <= k < n ==> c[k] in lines[k].candidates && id !in lines[k].candidates;
      assert Carries(rows, TakenMap(init, c), lines[n].quantity, id);
    }
  }

  /** While no two lines want the same snapshot the rule misses nothing: it finds a plan
      exactly when the lines can be served at all, and that is when each can be alone. */
  lemma ApartExact(lines: seq<Demand>, rows: map<Id, Snapshot>)
    requires Apart(lines)
    ensures Plan(lines, rows).Ok? <==> exists choices :: Serves(lines, rows, choices)
    ensures Plan(lines, rows).Ok? <==> forall i :: 0 <= i < |lines| ==> Alone(lines[i], rows)
  {
    if Plan(lines, rows).Ok? { PlanServes(lines, rows); }
    if exists choices :: Serves(lines, rows, choices) {
      var choices :| Serves(lines, rows, choices);
      forall i | 0 <= i < |lines| ensures Alone(lines[i], rows) {
        TakesPart(lines, choices, i);
        assert choices[i] in choices;
      }
      ApartPlans(lines, rows);
    }
    if forall i :: 0 <= i < |lines| ==> Alone(lines[i], rows) { ApartPlans(lines, rows); }
  }

  ghost predicate OneLineEach(items: seq<CartItem>) {
    forall i, j :: 0 <= i < j < |items| ==> items[i].sku != items[j].sku
  }

  /** The snapshots that may serve the line include one with its whole quantity. */
  ghost predicate InStockAlone(c: Catalog, snaps: map<Id, Snapshot>, store: Id, market: string, line: CartItem)
    requires line.listing in c.listings && (c.listings[line.listing].offer.Some? ==> c.listings[line.listing].offer.value in c.offers)
  {
    exists id :: id in Serving(c, snaps, store, market, line) && line.quantity <= snaps[id].onHand - snaps[id].reserved
  }

  /** A cart with one line a SKU is accepted exactly when every line is current and can be
      served by itself, and the true total fits in 64 bits. */
  lemma OneLineEachAccepted(c: Catalog, snaps: map<Id, Snapshot>, store: Id, market: string, currency: string, items: seq<CartItem>)
    requires Amounts.AllFit(items) && OneLineEach(items)
    ensures AcceptedCart(c, snaps, store, market, currency, items).Ok? <==>
      AllCurrent(c, store, market, currency, items) && Amounts.Total(items) <= MAX_INT64 &&
      forall i :: 0 <= i < |items| ==> InStockAlone(c, snaps, store, market, items[i])
  {
    hide Current, Amounts.AllFit, Serving, AcceptedCart, Alone, Apart, InStockAlone, Plannable;
    CartAccepted(c, snaps, store, market, currency, items);
    if AllCurrent(c, store, market, currency, items) {
      var asked := Asked(c, snaps, store, market, currency, items);
      PlanExact(asked, snaps);
      AskedApart(c, snaps, store, market, currency, items);
      ApartExact(asked, snaps);
      forall i | 0 <= i < |items| { AskedAlone(c, snaps, store, market, currency, items, i); }
    }
  }

  lemma AskedApart(c: Catalog, snaps: map<Id, Snapshot>, store: Id, market: string, currency: string, items: seq<CartItem>)
    requires AllCurrent(c, store, market, currency, items) && OneLineEach(items)
    ensures Apart(Asked(c, snaps, store, market, currency, items))
  {
    hide AllCurrent;
    var asked := Asked(c, snaps, store, market, currency, items);
    forall i, j | 0 <= i < j < |asked| ensures asked[i].candidates !! asked[j].candidates {
      assert forall id :: id in asked[i].candidates ==> snaps[id].sku == items[i].sku;
      assert forall id :: id in asked[j].candidates ==> snaps[id].sku == items[j].sku;
    }
  }

  lemma AskedAlone(c: Catalog, snaps: map<Id, Snapshot>, store: Id, market: string, currency: string, items: seq<CartItem>, i: nat)
    requires AllCurrent(c, store, market, currency, items) && Amounts.AllFit(items) && i < |items|
    ensures Alone(Asked(c, snaps, store, market, currency, items)[i], snaps) <==> InStockAlone(c, snaps, store, market, items[i])
  {
  }

  // ---- Two lines for one SKU.

  const SMALL: Snapshot := Snapshot(2, 1, 3, 3, 0, 0)
  const LARGE: Snapshot := Snapshot(1, 1, 5, 5, 0, 0)

  function Both(quantity: int): Demand {
    Demand({1, 2}, quantity)
  }

  ghost predicate Stocked(rows: map<Id, Snapshot>) {
    rows.Keys == {1, 2} && rows[1] == LARGE && rows[2] == SMALL
  }

  lemma SwappedServes(rows: map<Id, Snapshot>)
    requires Stocked(rows)
    ensures Serves([Both(3), Both(5)], rows, [2, 1])
  {
    var lines, choices := [Both(3), Both(5)], [2, 1];
    assert choices[..1] == [2] && [2][..0] == [];
    assert forall id :: Taken(lines, [2], id) == if id == 2 then 3 else 0;
    assert forall id :: Taken(lines, choices, id) == Taken(lines, choices[..1], id) + if id == 1 then 5 else 0;
  }

  /** After the first line took the lesser id, nothing carries the second. */
  lemma SecondFails(rows: map<Id, Snapshot>, choices: seq<Id>)
    requires Stocked(rows) && |choices| == 2 && PlannedAt([Both(3), Both(5)], rows, choices, 0)
    ensures !PlannedAt([Both(3), Both(5)], rows, choices, 1)
  {
    hide LeftFitting, Stocked;
    TakesLesser(rows, choices);
    NothingLeft(rows);
    assert choices[..1] == [1];
  }

  lemma TakesLesser(rows: map<Id, Snapshot>, choices: seq<Id>)
    requires Stocked(rows) && |choices| == 2 && PlannedAt([Both(3), Both(5)], rows, choices, 0)
    ensures choices[0] == 1
  {
    hide LeftFitting, Stocked;
    AllLeft(rows);
    assert choices[..0] == [];
  }

  lemma AllLeft(rows: map<Id, Snapshot>)
    requires Stocked(rows)
    ensures LeftFitting([Both(3), Both(5)], rows, []) == {1, 2}
  {
    var lines, none: seq<Id> := [Both(3), Both(5)], [];
    assert lines[|none|] == Both(3);
    forall id: Id ensures id in LeftFitting(lines, rows, none) <==> id in {1, 2} {
      assert Taken(lines, none, id) == 0;
    }
  }

  lemma NothingLeft(rows: map<Id, Snapshot>)
    requires Stocked(rows)
    ensures LeftFitting([Both(3), Both(5)], rows, [1]) == {}
  {
    var lines := [Both(3), Both(5)];
    assert lines[|[1]|] == Both(5) && [1][..0] == [];
    forall id: Id ensures id !in LeftFitting(lines, rows, [1]) {
      assert Taken(lines, [1], id) == Taken(lines, [], id) + if id == 1 then 3 else 0;
    }
  }

  /** Lines that share snapshots can be refused though other choices would serve them: the
      smaller line takes the larger snapshot because that has the lesser id. */
  lemma LeastIdMisses(rows: map<Id, Snapshot>)
    requires Stocked(rows)
    ensures Plan([Both(3), Both(5)], rows).Err?
    ensures Serves([Both(3), Both(5)], rows, [2, 1])
  {
    SwappedServes(rows);
    hide Plan, Serves, PlannedAt, Stocked;
    if Plan([Both(3), Both(5)], rows).Ok? {
      PlanIsPlan([Both(3), Both(5)], rows);
      SecondFails(rows, Plan([Both(3), Both(5)], rows).value);
    }
  }
}
