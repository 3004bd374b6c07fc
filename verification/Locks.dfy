/** Row locks of the checkout and order transactions, and why they cannot deadlock
    (modules/commerce/checkout_session.go:276-415, modules/commerce/order_repository.go:352-418,487-592). */
module Locks {
  import opened Base

  datatype Lock =
    | SessionLock(id: Id) | CartLock(id: Id) | OrderLock(id: Id)
    | SnapshotLock(id: Id) | ReservationLock(id: Id) | SequenceLock(id: Id)

  function Rank(l: Lock): nat {
    match l
    case SessionLock(_) => 0
    case CartLock(_) => 1
    case OrderLock(_) => 2
    case SnapshotLock(_) => 3
    case ReservationLock(_) => 4
    case SequenceLock(_) => 5
  }

  /** Session, cart, order, snapshots by id, reservations by id, order sequence. */
  predicate Below(a: Lock, b: Lock) {
    Rank(a) < Rank(b) || (Rank(a) == Rank(b) && a.id < b.id)
  }

  ghost predicate Increasing(locks: seq<Lock>) {
    forall i, j :: 0 <= i < j < |locks| ==> Below(locks[i], locks[j])
  }

  // ---- Waiting.

  /** A transaction in flight: the locks it holds, in the order it took them, and the one
      it is blocked on. */
  datatype Transaction = Transaction(held: seq<Lock>, wants: Option<Lock>)

  /** Its locks so far, and the next one, follow the order. */
  ghost predicate Orderly(t: Transaction) {
    Increasing(t.held + if t.wants.Some? then [t.wants.value] else [])
  }

  predicate WaitsFor(a: Transaction, b: Transaction) {
    a.wants.Some? && a.wants.value in b.held
  }

  /** p lists transactions, each waiting for the next. */
  ghost predicate Chain(all: seq<Transaction>, p: seq<nat>) {
    && (forall k :: 0 <= k < |p| ==> p[k] < |all|)
    && forall k :: 0 <= k < |p| - 1 ==> WaitsFor(all[p[k]], all[p[k + 1]])
  }

  lemma WantsAbove(a: Transaction, b: Transaction)
    requires Orderly(b) && WaitsFor(a, b) && b.wants.Some?
    ensures Below(a.wants.value, b.wants.value)
  {
    var all := b.held + [b.wants.value];
    var i :| 0 <= i < |b.held| && b.held[i] == a.wants.value;
    assert Below(all[i], all[|b.held|]);
  }

  lemma {:induction false} ChainClimbs(all: seq<Transaction>, p: seq<nat>)
    requires forall i :: 0 <= i < |all| ==> Orderly(all[i])
    requires Chain(all, p) && |p| >= 2 && all[p[|p| - 1]].wants.Some?
    ensures all[p[0]].wants.Some? && Below(all[p[0]].wants.value, all[p[|p| - 1]].wants.value)
    decreases |p|
  {
    var n := |p| - 1;
    assert WaitsFor(all[p[n - 1]], all[p[n - 1 + 1]]);
    WantsAbove(all[p[n - 1]], all[p[n]]);
    if n > 1 {
      var q := p[..n];
      forall k | 0 <= k < |q| - 1 ensures WaitsFor(all[q[k]], all[q[k + 1]]) {
        assert WaitsFor(all[p[k]], all[p[k + 1]]);
      }
      ChainClimbs(all, q);
    }
  }

  /** Any number of transactions that lock in order never deadlock: the wait-for graph has
      no cycle. */
  lemma NoDeadlock(all: seq<Transaction>, p: seq<nat>)
    requires forall i :: 0 <= i < |all| ==> Orderly(all[i])
    requires Chain(all, p) && |p| >= 2
    ensures p[0] != p[|p| - 1]
  {
    if p[0] == p[|p| - 1] {
      assert WaitsFor(all[p[0]], all[p[0 + 1]]);
      ChainClimbs(all, p);
    }
  }

  // ---- Transactions part of the way through their traces.

  lemma PrefixOrdered(locks: seq<Lock>, n: nat)
    requires Increasing(locks) && n <= |locks|
    ensures Increasing(locks[..n])
  {
  }

  /** A transaction that will take the locks of the trace in order and has taken n. */
  function InFlight(trace: seq<Lock>, n: nat): Transaction
    requires n <= |trace|
  {
    Transaction(trace[..n], if n < |trace| then Some(trace[n]) else None)
  }

  lemma InFlightOrderly(trace: seq<Lock>, n: nat)
    requires Increasing(trace) && n <= |trace|
    ensures Orderly(InFlight(trace, n))
  {
    if n < |trace| {
      PrefixOrdered(trace, n + 1);
      assert trace[..n] + [trace[n]] == trace[..n + 1];
    } else {
      PrefixOrdered(trace, n);
      assert trace[..n] + [] == trace[..n];
    }
  }

  /** Each transaction is somewhere along its trace. */
  predicate Stopped(traces: seq<seq<Lock>>, at: seq<nat>) {
    |at| == |traces| && forall i :: 0 <= i < |at| ==> at[i] <= |traces[i]|
  }

  function AllInFlight(traces: seq<seq<Lock>>, at: seq<nat>): seq<Transaction>
    requires Stopped(traces, at)
  {
    seq(|at|, i requires 0 <= i < |at| => InFlight(traces[i], at[i]))
  }

  /** No transaction waits, through any others, for itself, wherever each of them stands. */
  ghost predicate DeadlockFree(traces: seq<seq<Lock>>) {
    forall at, p :: Stopped(traces, at) && Chain(AllInFlight(traces, at), p) && |p| >= 2 ==> p[0] != p[|p| - 1]
  }

  /** Transactions with increasing traces never deadlock. */
  lemma TracesDeadlockFree(traces: seq<seq<Lock>>)
    requires forall i :: 0 <= i < |traces| ==> Increasing(traces[i])
    ensures DeadlockFree(traces)
  {
    hide Increasing, Orderly, Chain;
    forall at, p | Stopped(traces, at) && Chain(AllInFlight(traces, at), p) && |p| >= 2 ensures p[0] != p[|p| - 1] {
      forall i | 0 <= i < |at| { InFlightOrderly(traces[i], at[i]); }
      NoDeadlock(AllInFlight(traces, at), p);
    }
  }

  // ---- Traces of one transaction.

  function SnapshotLocks(ids: seq<Id>): seq<Lock> {
    seq(|ids|, i requires 0 <= i < |ids| => SnapshotLock(ids[i]))
  }

  function ReservationLocks(ids: seq<Id>): seq<Lock> {
    seq(|ids|, i requires 0 <= i < |ids| => ReservationLock(ids[i]))
  }

  /** Everything in a comes before everything in b. */
  lemma Joined(a: seq<Lock>, b: seq<Lock>)
    requires Increasing(a) && Increasing(b)
    requires forall x, y :: x in a && y in b ==> Below(x, y)
    ensures Increasing(a + b)
  {
    forall i, j | 0 <= i < j < |a + b| ensures Below((a + b)[i], (a + b)[j]) {
      if i < |a| && j >= |a| { assert a[i] in a && b[j - |a|] in b; }
    }
  }

  /** An order command's trace: the order, its snapshots and its reservations by id. */
  lemma SettlementOrdered(order: Id, snapshots: seq<Id>, reservations: seq<Id>)
    requires Ascending(snapshots) && Ascending(reservations)
    ensures Increasing([OrderLock(order)] + SnapshotLocks(snapshots) + ReservationLocks(reservations))
  {
    Joined([OrderLock(order)], SnapshotLocks(snapshots));
    Joined([OrderLock(order)] + SnapshotLocks(snapshots), ReservationLocks(reservations));
  }

  /** A finalize's trace: session, cart, candidate snapshots by id, order sequence. */
  lemma FinalizeOrdered(session: Id, cart: Id, snapshots: seq<Id>, store: Id)
    requires Ascending(snapshots)
    ensures Increasing([SessionLock(session), CartLock(cart)] + SnapshotLocks(snapshots) + [SequenceLock(store)])
  {
    Joined([SessionLock(session), CartLock(cart)], SnapshotLocks(snapshots));
    Joined([SessionLock(session), CartLock(cart)] + SnapshotLocks(snapshots), [SequenceLock(store)]);
  }
}
