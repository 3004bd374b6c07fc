/** One pass of the expiry worker over the repository
    (apps/workers/scheduler/expiry_worker.go:47-63, modules/commerce/order_repository.go:1334-1365). */
module ExpiryWorker {
  import opened Base
  import opened Records
  import opened Tables
  import opened Commands
  import opened Runs
  import opened Expiry
  import R = Repository

  // ---- Discovery.

  /** One with the earliest deadline. */
  method Earliest(orders: map<Id, Order>, ids: set<Id>) returns (best: Id)
    requires ids != {} && ids <= orders.Keys
    ensures best in ids && forall k :: k in ids ==> orders[best].deadline <= orders[k].deadline
  {
    best :| best in ids;
    var rest := ids - {best};
    while rest != {}
      invariant rest <= ids && best in ids && forall k :: k in ids - rest ==> orders[best].deadline <= orders[k].deadline
      decreases |rest|
    {
      var k :| k in rest;
      rest := rest - {k};
      if orders[k].deadline < orders[best].deadline { best := k; }
    }
  }

  /** ids are taken from all, earliest first; rest is left. */
  ghost predicate Taken(orders: map<Id, Order>, all: set<Id>, rest: set<Id>, ids: seq<Id>)
    requires all <= orders.Keys && rest <= all
  {
    && Distinct(ids) && all - rest == Elements(ids) && |ids| + |rest| == |all|
    && (forall i :: 0 <= i < |ids| ==> ids[i] in all)
    && (forall i, j :: 0 <= i < j < |ids| ==> orders[ids[i]].deadline <= orders[ids[j]].deadline)
    && (forall i, k :: 0 <= i < |ids| && k in rest ==> orders[ids[i]].deadline <= orders[k].deadline)
  }

  lemma TakenGrows(orders: map<Id, Order>, all: set<Id>, rest: set<Id>, ids: seq<Id>, best: Id)
    requires all <= orders.Keys && rest <= all && Taken(orders, all, rest, ids) && best in rest
    requires forall k :: k in rest ==> orders[best].deadline <= orders[k].deadline
    ensures Taken(orders, all, rest - {best}, ids + [best])
  {
    var grown := ids + [best];
    forall i | 0 <= i < |ids| ensures ids[i] in Elements(ids) { }
    forall k ensures k in Elements(grown) <==> k in Elements(ids) || k == best {
      if k in Elements(ids) { var i :| 0 <= i < |ids| && ids[i] == k; assert grown[i] == k; }
      assert grown[|ids|] == best;
    }
  }

  /** The query: pending orders past their deadline, the earliest first, up to the limit. */
  method DiscoverExpiryCandidates(orders: map<Id, Order>, limit: int, now: Time) returns (ids: seq<Id>)
    ensures Candidates(orders, limit, now, ids)
    ensures |ids| == Least2(if limit <= 0 then 100 else limit, |Overdue(orders, now)|)
  {
    var size: nat := if limit <= 0 then 100 else limit;
    var all := set id | id in orders && orders[id].status == Pending && orders[id].deadline <= now;
    assert all == Overdue(orders, now);
    var rest := all;
    ids := [];
    while |ids| < size && rest != {}
      invariant |ids| <= size && rest <= all && Taken(orders, all, rest, ids)
      decreases |rest|
    {
      var best := Earliest(orders, rest);
      TakenGrows(orders, all, rest, ids, best);
      ids := ids + [best];
      rest := rest - {best};
    }
  }

  // ---- The pass.

  /** Any reading of the clock from now on. */
  method Clock(now: Time) returns (at: Time)
    ensures now <= at
  {
    var gap: int :| 0 <= gap;
    at := now + gap;
  }

  /** Discover at now, then expire one candidate after the other; an error on one is logged
      and the next is taken; a cancelled context stops the pass. A pass that is not
      stopped clears what it can of what was due at any time up to its discovery. */
  method ProcessBatch(repo: R.Repository, limit: int, now: Time, stopAfter: nat)
    returns (candidates: seq<Id>, done: nat, ghost times: seq<Time>)
    requires now != 0
    modifies repo
    ensures Candidates(old(repo.tables).orders, limit, now, candidates)
    ensures done <= |candidates| && (stopAfter >= |candidates| ==> done == |candidates|)
    ensures Expired(old(repo.tables), repo.tables, candidates[..done], times, now)
    ensures done == |candidates| && Inv(old(repo.tables)) ==> Clears(old(repo.tables).orders, repo.tables.orders, limit, now)
  {
    hide Expired, Candidates, Inv, Clears;
    candidates := DiscoverExpiryCandidates(repo.tables.orders, limit, now);
    done, times := 0, [];
    PassEmpty(repo.tables, now);
    while done < |candidates|
      invariant 0 <= done <= |candidates| && Expired(old(repo.tables), repo.tables, candidates[..done], times, now)
    {
      if done >= stopAfter { return; }
      var at := Clock(now);
      PassGrows(old(repo.tables), repo.tables, candidates[..done], times, now, candidates[done], at);
      assert candidates[..done + 1] == candidates[..done] + [candidates[done]];
      var r := repo.ExpirePendingOrder(candidates[done], at);
      times := times + [at];
      done := done + 1;
    }
    assert candidates[..done] == candidates;
    if Inv(old(repo.tables)) { PassClears(old(repo.tables), repo.tables, limit, now, candidates, times); }
  }

  /** The tables after the orders were expired one by one, each at or after now. */
  ghost predicate Expired(t: Tables, u: Tables, ids: seq<Id>, times: seq<Time>, now: Time) {
    Clocked(ids, times, now) && Possible(t, PassSteps(ids, times)) && u == Run(t, PassSteps(ids, times))
  }

  /** Of what was due at any time up to now, as much is gone as the limit allows. */
  ghost predicate Clears(a: map<Id, Order>, b: map<Id, Order>, limit: int, now: Time) {
    forall start: Time :: start <= now ==> |Overdue(b, start)| == Left(|Overdue(a, start)|, limit)
  }

  lemma PassClears(t: Tables, u: Tables, limit: int, now: Time, ids: seq<Id>, times: seq<Time>)
    requires Inv(t) && Candidates(t.orders, limit, now, ids) && Expired(t, u, ids, times, now)
    ensures Clears(t.orders, u.orders, limit, now)
  {
    hide Inv, Candidates, Run, Possible, Overdue, Limit, Least2;
    forall start: Time | start <= now { PassDrains(t, limit, start, now, ids, times); }
  }

  /** What a pass leaves of so many overdue orders. */
  function Left(overdue: nat, limit: int): int {
    overdue - Least2(Limit(limit), overdue)
  }

  lemma PassEmpty(t: Tables, now: Time)
    requires now != 0
    ensures Expired(t, t, [], [], now)
  {
  }

  lemma PassGrows(t: Tables, u: Tables, ids: seq<Id>, times: seq<Time>, now: Time, id: Id, at: Time)
    requires Expired(t, u, ids, times, now) && now <= at
    ensures Expired(t, ExpirePendingOrder(u, id, at).0, ids + [id], times + [at], now)
  {
    hide Possible, Run, ExpirePendingOrder;
    var s := OnOrder(id, ExpirePending(at));
    assert PassSteps(ids + [id], times + [at]) == PassSteps(ids, times) + [s];
    RunAppends(t, PassSteps(ids, times), s);
  }
}
