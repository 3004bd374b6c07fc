/** The expiry scheduler drains overdue orders (apps/workers/scheduler/expiry_worker.go:47-63,
    modules/commerce/order_repository.go:1335-1365). */
module Expiry {
  import opened Base
  import opened Records
  import opened Orders
  import opened Tables
  import opened Commands
  import opened Checkout
  import opened Finalize
  import opened Ledger
  import opened Placement
  import opened Purchases
  import opened Runs

  const DEFAULT_LIMIT: nat := 100

  /** Pending orders whose deadline has passed at the given time. */
  function Overdue(orders: map<Id, Order>, now: Time): set<Id> {
    set id | id in orders && orders[id].status == Pending && orders[id].deadline <= now
  }

  /** Exactly the orders the scheduler may cancel. */
  lemma OverdueExact(orders: map<Id, Order>, id: Id, now: Time)
    requires now != 0
    ensures id in Overdue(orders, now) <==>
      id in orders && Allowed(Some(orders[id].status), Scheduler, Cancelled, orders[id].deadline, now)
  {
  }

  function Limit(limit: int): nat {
    if limit <= 0 then DEFAULT_LIMIT else limit
  }

  function Least2(a: nat, b: nat): nat { if a < b then a else b }

  /** DiscoverExpiryCandidates: the earliest deadlines first, ties in any order. */
  ghost predicate Candidates(orders: map<Id, Order>, limit: int, now: Time, ids: seq<Id>) {
    && Distinct(ids) && (forall i :: 0 <= i < |ids| ==> ids[i] in Overdue(orders, now))
    && |ids| == Least2(Limit(limit), |Overdue(orders, now)|)
    && (forall i, j :: 0 <= i < j < |ids| ==> orders[ids[i]].deadline <= orders[ids[j]].deadline)
    && (forall i, id :: 0 <= i < |ids| && id in Overdue(orders, now) - Elements(ids) ==> orders[ids[i]].deadline <= orders[id].deadline)
  }

  ghost predicate NotPending(t: Tables, id: Id) {
    id in t.orders && t.orders[id].status != Pending
  }

  /** Once an order has left pending it never comes back. */
  lemma PendingNeverReturns(t: Tables, u: Tables, id: Id)
    requires Later(t, u) && NotPending(t, id)
    ensures NotPending(u, id)
  {
    assert OrderKept(t.orders[id], u.orders[id]);
  }

  /** An overdue order is still overdue later, or no longer pending. */
  lemma StaysDue(t: Tables, u: Tables, id: Id, now: Time)
    requires Later(t, u) && id in Overdue(t.orders, now)
    ensures NotPending(u, id) || id in Overdue(u.orders, now)
  {
    assert OrderKept(t.orders[id], u.orders[id]);
  }

  ghost predicate Expires(step: Step, id: Id, now: Time) {
    step.OnOrder? && step.order == id && step.orderCommand.ExpirePending? && step.orderCommand.now >= now
  }

  lemma NamedOrders(t: Tables, id: Id)
    requires Inv(t) && id in t.orders
    ensures id != NO_ID
  {
  }

  lemma ExpireStepWorks(t: Tables, step: Step, id: Id, now: Time)
    requires Inv(t) && Enabled(t, step) && Expires(step, id, now)
    requires id in Overdue(t.orders, now) || NotPending(t, id)
    ensures NotPending(Apply(t, step), id)
  {
    NamedOrders(t, id);
    hide Inv, OnlyOrderMoves, Allowed, ExpirePendingOrder;
    ExpireExact(t, id, step.orderCommand.now);
  }

  /** In any run in which the scheduler gets to a candidate, among whatever else happens,
      the candidate is not pending at the end. */
  lemma {:induction false} CandidateExpires(t: Tables, steps: seq<Step>, id: Id, now: Time, k: nat)
    requires Inv(t) && Possible(t, steps)
    requires id in Overdue(t.orders, now) || NotPending(t, id)
    requires k < |steps| && Expires(steps[k], id, now)
    ensures NotPending(Run(t, steps), id)
    decreases |steps|
  {
    hide Inv, Later, Apply, Enabled;
    var u := Apply(t, steps[0]);
    StepKeepsInv(t, steps[0]);
    if k == 0 {
      ExpireStepWorks(t, steps[0], id, now);
      RunKeepsInv(u, steps[1..]);
      PendingNeverReturns(u, Run(u, steps[1..]), id);
    } else {
      if id in Overdue(t.orders, now) { StaysDue(t, u, id, now); } else { PendingNeverReturns(t, u, id); }
      assert steps[1..][k - 1] == steps[k];
      CandidateExpires(u, steps[1..], id, now, k - 1);
    }
  }

  /** One pass by itself: expire every candidate, each at its own later time. */
  function PassSteps(ids: seq<Id>, times: seq<Time>): seq<Step>
    requires |ids| == |times|
  {
    seq(|ids|, i requires 0 <= i < |ids| => OnOrder(ids[i], ExpirePending(times[i])))
  }

  ghost predicate Clocked(ids: seq<Id>, times: seq<Time>, now: Time) {
    |ids| == |times| && now != 0 && forall i :: 0 <= i < |times| ==> times[i] >= now
  }

  lemma {:induction false} PassPossible(t: Tables, ids: seq<Id>, times: seq<Time>, now: Time)
    requires Clocked(ids, times, now)
    ensures Possible(t, PassSteps(ids, times))
    decreases |ids|
  {
    if ids != [] {
      var steps := PassSteps(ids, times);
      assert steps[1..] == PassSteps(ids[1..], times[1..]);
      PassPossible(Apply(t, steps[0]), ids[1..], times[1..], now);
    }
  }

  lemma ExpireTouchesOne(t: Tables, id: Id, at: Time)
    requires Inv(t) && at != 0
    ensures var u := OrderStep(t, id, ExpirePending(at));
            u.orders.Keys == t.orders.Keys && forall k :: k in t.orders && k != id ==> u.orders[k] == t.orders[k]
  {
    hide Inv, OrderStep;
    OrderStepAllowed(t, id, ExpirePending(at));
  }

  lemma {:induction false} PassTouchesCandidates(t: Tables, ids: seq<Id>, times: seq<Time>, now: Time, k: Id)
    requires Inv(t) && Clocked(ids, times, now) && k !in ids
    requires Possible(t, PassSteps(ids, times))
    ensures var u := Run(t, PassSteps(ids, times));
            u.orders.Keys == t.orders.Keys && (k in t.orders ==> u.orders[k] == t.orders[k])
    decreases |ids|
  {
    hide Inv, Later, OrderStep;
    if ids != [] {
      var steps := PassSteps(ids, times);
      assert steps[1..] == PassSteps(ids[1..], times[1..]);
      ExpireTouchesOne(t, ids[0], times[0]);
      StepKeepsInv(t, steps[0]);
      PassTouchesCandidates(Apply(t, steps[0]), ids[1..], times[1..], now, k);
    }
  }

  lemma PassLeaves(t: Tables, ids: seq<Id>, times: seq<Time>, start: Time, now: Time, k: Id)
    requires Inv(t) && Clocked(ids, times, now) && Possible(t, PassSteps(ids, times))
    requires forall i :: 0 <= i < |ids| ==> ids[i] in Overdue(t.orders, now)
    ensures k in Overdue(Run(t, PassSteps(ids, times)).orders, start) <==> k in Overdue(t.orders, start) && k !in ids
  {
    hide Inv, Possible, Run;
    if k in ids {
      var i :| 0 <= i < |ids| && ids[i] == k;
      CandidateExpires(t, PassSteps(ids, times), k, now, i);
    } else {
      PassTouchesCandidates(t, ids, times, now, k);
    }
  }

  // ---- What the order of the candidates is for.

  lemma {:induction false} DistinctCount(ids: seq<Id>)
    requires Distinct(ids)
    ensures |Elements(ids)| == |ids|
  {
    if ids != [] {
      DropLast(ids);
      DistinctCount(ids[..|ids| - 1]);
    }
  }

  lemma SameSize(a: set<Id>, b: set<Id>)
    requires a <= b && |a| == |b|
    ensures a == b
  {
    assert |b - a| == |b| - |a|;
  }

  lemma Smaller(a: set<Id>, b: set<Id>)
    requires a <= b
    ensures |a| <= |b| && |b - a| == |b| - |a|
  {
    assert a + (b - a) == b;
  }

  /** Candidates discovered at a later time, earliest deadlines first, take as much as a
      pass can from what was due at an earlier one. */
  lemma CandidatesCut(orders: map<Id, Order>, limit: int, start: Time, now: Time, ids: seq<Id>)
    requires start <= now && Candidates(orders, limit, now, ids)
    ensures |Overdue(orders, start) - Elements(ids)| == |Overdue(orders, start)| - Least2(Limit(limit), |Overdue(orders, start)|)
  {
    var due, all, taken := Overdue(orders, start), Overdue(orders, now), Elements(ids);
    hide Limit;
    DistinctCount(ids);
    Smaller(due, all);
    assert taken <= all;
    if |ids| == |all| {
      SameSize(taken, all);
      assert due - taken == {};
    } else if due <= taken {
      Smaller(due, taken);
      assert due - taken == {};
    } else {
      var x :| x in due && x !in taken;
      assert x in all - taken;
      forall i | 0 <= i < |ids| ensures ids[i] in due { assert orders[ids[i]].deadline <= orders[x].deadline; }
      assert taken <= due;
      Smaller(taken, due);
    }
  }

  /** A pass by itself removes exactly its candidates from the orders that were due at any
      time up to its discovery, so their number drops by the smaller of the limit and that
      number. */
  lemma PassDrains(t: Tables, limit: int, start: Time, now: Time, ids: seq<Id>, times: seq<Time>)
    requires Inv(t) && Candidates(t.orders, limit, now, ids) && Clocked(ids, times, now) && start <= now
    ensures Possible(t, PassSteps(ids, times))
    ensures var u := Run(t, PassSteps(ids, times));
            && Inv(u) && Overdue(u.orders, start) == Overdue(t.orders, start) - Elements(ids)
            && |Overdue(u.orders, start)| == |Overdue(t.orders, start)| - Least2(Limit(limit), |Overdue(t.orders, start)|)
  {
    hide Inv, Later, Possible, Run, PassSteps, Overdue;
    PassPossible(t, ids, times, now);
    RunKeepsInv(t, PassSteps(ids, times));
    forall k: Id { PassLeaves(t, ids, times, start, now, k); }
    CandidatesCut(t.orders, limit, start, now, ids);
  }

  // ---- Nothing else adds to what was due.

  /** The clock does not run backwards: what is placed from now on is placed at or after
      the given time. */
  predicate Since(step: Step, start: Time) {
    step.Finalize? ==> start <= step.at
  }

  ghost predicate AllSince(steps: seq<Step>, start: Time) {
    forall i :: 0 <= i < |steps| ==> Since(steps[i], start)
  }

  /** Only a finalize adds an order, and its deadline lies after the time it is placed. */
  lemma PlacedLater(t: Tables, store: Id, request: FinalizeRequest, now: Time, at: Time, duration: int, f: Fresh)
    requires Inv(t) && AttemptFresh(t, request, f) && at != 0
    ensures var u := FinalizeCheckout(t, store, request, now, at, duration, f).0;
            forall id :: id in u.orders ==> (id in t.orders && u.orders[id] == t.orders[id]) || u.orders[id].deadline > at
  {
    var fp := Opened(t, store, request, now);
    hide Inv;
    if fp.Ok? && t.sessions[request.session].status != SessionFinalized {
      OpenedMayClose(t, store, request, now);
      hide Opened, Place, MayClose, FreshFor, Placeable, PlacedOrder;
      PlaceOutcome(t, store, request, fp.value, at, duration, f);
      if Place(t, store, request, fp.value, at, duration, f).1.Ok? {
        PlacedOwns(t, store, request, fp.value, at, duration, f);
      }
    }
  }

  lemma OthersKeepIds(t: Tables, step: Step)
    requires Inv(t) && Enabled(t, step) && !step.Finalize?
    ensures Apply(t, step).orders.Keys == t.orders.Keys
  {
    hide Inv, OrderStep, CartStep, StockStep, CreateCheckoutSession;
    match step {
      case OnOrder(id, c) => OrderStepAllowed(t, id, c);
      case OnCart(id, c) => CartStepGrows(t, id, c);
      case OnStock(id, c) => StockStepKeepsOrders(t, id, c);
      case NewSession(id, store, cart, customer, lifetime, now) => NewSessionGrows(t, id, store, cart, customer, lifetime, now);
      case _ =>
    }
  }

  lemma StockStepKeepsOrders(t: Tables, id: Id, c: StockCommand)
    requires Inv(t) && (c.NewSnapshot? ==> id != NO_ID)
    ensures StockStep(t, id, c).orders == t.orders
  {
    assert StockOk(t) && NO_ID !in t.snapshots;
    hide Inv, StockOk, BooksOk, CreateInventorySnapshot, AdjustInventory, ReserveInventory;
    match c {
      case NewSnapshot(location, sku, onHand) => CreateKeepsStock(t, id, location, sku, onHand);
      case Adjust(delta, movementType) => AdjustKeepsStock(t, id, delta, movementType);
      case Reserve(quantity, token, reservation, expiresAt) => ReserveKeepsStock(t, id, quantity, token, reservation, expiresAt);
    }
  }

  /** No transaction makes an order overdue at a time that has passed. */
  lemma StepDue(t: Tables, step: Step, start: Time)
    requires Inv(t) && Enabled(t, step) && Since(step, start)
    ensures Overdue(Apply(t, step).orders, start) <= Overdue(t.orders, start)
  {
    hide Inv, Enabled, Apply, SessionsLater;
    StepKeepsInv(t, step);
    NewNotDue(t, step, start);
    var u := Apply(t, step);
    forall id | id in Overdue(u.orders, start) ensures id in Overdue(t.orders, start) {
      assert id in t.orders ==> OrderKept(t.orders[id], u.orders[id]);
    }
  }

  lemma NewNotDue(t: Tables, step: Step, start: Time)
    requires Inv(t) && Enabled(t, step) && Since(step, start)
    ensures forall id :: id in Overdue(Apply(t, step).orders, start) ==> id in t.orders
  {
    hide Inv, OrderStep, CartStep, StockStep, CreateCheckoutSession, FinalizeCheckout, AttemptFresh;
    if step.Finalize? {
      PlacedLater(t, step.store, step.request, step.now, step.at, step.duration, step.drawn);
    } else {
      OthersKeepIds(t, step);
    }
  }

  lemma {:induction false} RunDue(t: Tables, steps: seq<Step>, start: Time)
    requires Inv(t) && Possible(t, steps) && AllSince(steps, start)
    ensures Overdue(Run(t, steps).orders, start) <= Overdue(t.orders, start)
    decreases |steps|
  {
    hide Inv, Later, Apply, Enabled, Since, Overdue;
    if steps != [] {
      StepKeepsInv(t, steps[0]);
      StepDue(t, steps[0], start);
      RunDue(Apply(t, steps[0]), steps[1..], start);
    }
  }

  // ---- Passes among everything else.

  /** Other transactions run; the pass discovers its candidates at now; then it works
      through them, again among other transactions. */
  datatype Pass = Pass(before: seq<Step>, now: Time, ids: seq<Id>, work: seq<Step>)

  ghost predicate Reached(p: Pass, i: nat)
    requires i < |p.ids|
  {
    exists k: nat :: k < |p.work| && Expires(p.work[k], p.ids[i], p.now)
  }

  /** The pass gets to every candidate. */
  ghost predicate Worked(p: Pass) {
    forall i :: 0 <= i < |p.ids| ==> Reached(p, i)
  }

  ghost predicate PassFrom(t: Tables, limit: int, start: Time, p: Pass) {
    && Possible(t, p.before) && AllSince(p.before, start)
    && start <= p.now && Candidates(Run(t, p.before).orders, limit, p.now, p.ids)
    && Possible(Run(t, p.before), p.work) && AllSince(p.work, start) && Worked(p)
  }

  ghost function Passed(t: Tables, p: Pass): Tables
    requires Possible(t, p.before) && Possible(Run(t, p.before), p.work)
  {
    Run(Run(t, p.before), p.work)
  }

  lemma CandidatesGone(t: Tables, p: Pass, start: Time, k: Id)
    requires Inv(t) && Possible(t, p.work) && Worked(p) && k in p.ids
    requires forall i :: 0 <= i < |p.ids| ==> p.ids[i] in Overdue(t.orders, p.now)
    ensures k !in Overdue(Run(t, p.work).orders, start)
  {
    hide Inv, Possible, Run, Expires;
    var i: nat :| i < |p.ids| && p.ids[i] == k;
    assert Reached(p, i);
    var j: nat :| j < |p.work| && Expires(p.work[j], k, p.now);
    CandidateExpires(t, p.work, k, p.now, j);
  }

  /** What the sets of a pass have to do with each other: due at its beginning, still due
      at its discovery, taken by it, and left at its end. */
  lemma CutSizes(due: set<Id>, mid: set<Id>, taken: set<Id>, left: set<Id>, limit: nat)
    requires mid <= due && left <= mid && (forall k :: k in taken ==> k !in left)
    requires |mid - taken| == |mid| - Least2(limit, |mid|)
    ensures |left| <= Positive(|due| - limit)
  {
    Smaller(mid, due);
    assert left <= mid - taken;
    Smaller(left, mid - taken);
  }

  /** From its discovery on. */
  lemma WorkCuts(mid: Tables, limit: int, start: Time, p: Pass)
    requires Inv(mid) && Possible(mid, p.work) && AllSince(p.work, start) && Worked(p)
    requires start <= p.now && Candidates(mid.orders, limit, p.now, p.ids)
    ensures var due, left := Overdue(mid.orders, start), Overdue(Run(mid, p.work).orders, start);
            && left <= due && (forall k :: k in Elements(p.ids) ==> k !in left)
            && |due - Elements(p.ids)| == |due| - Least2(Limit(limit), |due|)
  {
    CandidatesCut(mid.orders, limit, start, p.now, p.ids);
    assert forall i :: 0 <= i < |p.ids| ==> p.ids[i] in Overdue(mid.orders, p.now);
    hide Inv, Possible, Run, Overdue, Worked, AllSince, Limit, Candidates, Least2;
    RunDue(mid, p.work, start);
    forall k | k in Elements(p.ids) ensures k !in Overdue(Run(mid, p.work).orders, start) { CandidatesGone(mid, p, start, k); }
  }

  lemma PassCuts(t: Tables, limit: int, start: Time, p: Pass)
    requires Inv(t) && PassFrom(t, limit, start, p)
    ensures Inv(Passed(t, p))
    ensures |Overdue(Passed(t, p).orders, start)| <= Positive(|Overdue(t.orders, start)| - Limit(limit))
  {
    hide Inv, Later, Possible, Run, Overdue, Worked, AllSince, Limit, Candidates, Least2, Positive;
    var mid := Run(t, p.before);
    RunKeepsInv(t, p.before);
    RunKeepsInv(mid, p.work);
    RunDue(t, p.before, start);
    WorkCuts(mid, limit, start, p);
    CutSizes(Overdue(t.orders, start), Overdue(mid.orders, start), Elements(p.ids), Overdue(Passed(t, p).orders, start), Limit(limit));
  }

  ghost predicate Scheduled(t: Tables, limit: int, start: Time, passes: seq<Pass>)
    decreases |passes|
  {
    passes != [] ==> PassFrom(t, limit, start, passes[0]) && Scheduled(Passed(t, passes[0]), limit, start, passes[1..])
  }

  ghost function Drained(t: Tables, limit: int, start: Time, passes: seq<Pass>): Tables
    requires Scheduled(t, limit, start, passes)
    decreases |passes|
  {
    if passes == [] then t else Drained(Passed(t, passes[0]), limit, start, passes[1..])
  }

  /** Repeated passes, each discovering at its own later time and each among any other
      transactions, clear the limit each of what was due at the start; enough of them
      leave none of it. */
  lemma {:induction false} PassesDrain(t: Tables, limit: int, start: Time, passes: seq<Pass>)
    requires Inv(t) && Scheduled(t, limit, start, passes)
    ensures var left := Overdue(Drained(t, limit, start, passes).orders, start);
            && |left| <= Positive(|Overdue(t.orders, start)| - |passes| * Limit(limit))
            && (|passes| * Limit(limit) >= |Overdue(t.orders, start)| ==> left == {})
    decreases |passes|
  {
    hide Inv, Passed, Overdue, Limit, Candidates, Worked, Possible, Run, AllSince;
    if passes != [] {
      PassCuts(t, limit, start, passes[0]);
      PassesDrain(Passed(t, passes[0]), limit, start, passes[1..]);
      OnePassLess(|Overdue(t.orders, start)|, |passes|, Limit(limit));
    }
  }

  /** Passes with nothing else going on. */
  ghost predicate Quiet(p: Pass) {
    p.before == [] && exists times :: Clocked(p.ids, times, p.now) && p.work == PassSteps(p.ids, times)
  }

  lemma QuietPassCuts(t: Tables, limit: int, start: Time, p: Pass)
    requires Inv(t) && PassFrom(t, limit, start, p) && Quiet(p)
    ensures Inv(Passed(t, p))
    ensures |Overdue(Passed(t, p).orders, start)| == |Overdue(t.orders, start)| - Least2(Limit(limit), |Overdue(t.orders, start)|)
  {
    assert Run(t, []) == t;
    hide Inv, Candidates, Overdue, Limit, Least2, PassSteps, Run, Possible, Worked, AllSince;
    var times :| Clocked(p.ids, times, p.now) && p.work == PassSteps(p.ids, times);
    PassDrains(t, limit, start, p.now, p.ids, times);
  }

  /** Then the count is exact: n passes clear n times the limit. */
  lemma {:induction false} QuietPassesDrain(t: Tables, limit: int, start: Time, passes: seq<Pass>)
    requires Inv(t) && Scheduled(t, limit, start, passes)
    requires forall i :: 0 <= i < |passes| ==> Quiet(passes[i])
    ensures |Overdue(Drained(t, limit, start, passes).orders, start)| == Positive(|Overdue(t.orders, start)| - |passes| * Limit(limit))
    decreases |passes|
  {
    hide Inv, Passed, Overdue, Limit, Candidates, Worked, Possible, Run, AllSince, Quiet;
    if passes != [] {
      QuietPassCuts(t, limit, start, passes[0]);
      QuietPassesDrain(Passed(t, passes[0]), limit, start, passes[1..]);
      ExactlyOneLess(|Overdue(t.orders, start)|, |passes|, Limit(limit));
    }
  }

  lemma OnePassLess(overdue: nat, passes: nat, limit: nat)
    requires passes >= 1
    ensures Positive(Positive(overdue - limit) - (passes - 1) * limit) == Positive(overdue - passes * limit)
    ensures (passes - 1) * limit >= 0
  {
    assert passes * limit == limit + (passes - 1) * limit;
    assert (passes - 1) * limit >= 0;
  }

  lemma ExactlyOneLess(overdue: nat, passes: nat, limit: nat)
    requires passes >= 1
    ensures Positive(overdue - Least2(limit, overdue) - (passes - 1) * limit) == Positive(overdue - passes * limit)
  {
    assert passes * limit == limit + (passes - 1) * limit;
    assert (passes - 1) * limit >= 0;
  }

  function Positive(x: int): nat { if x < 0 then 0 else x }
}
