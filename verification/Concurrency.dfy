/** Any mix of checkout and order transactions is free of deadlock
    (modules/commerce/checkout_session.go:126-415, modules/commerce/order_repository.go:352-592,
    modules/commerce/customer_cart.go:220-300). */
module Concurrency {
  import opened Base
  import opened Records
  import opened Tables
  import opened Checkout
  import opened Finalize
  import opened Purchases
  import opened Runs
  import opened Locks
  import R = Repository
  import C = CheckoutRepository

  /** A transaction that locks rows explicitly. */
  datatype Job =
    | OrderJob(order: Id, orderCommand: OrderCommand)
    | CartJob(cart: Id, store: Id, item: Id, sku: Id, quantity: int)
    | EditJob(cart: Id, store: Id, edit: CartEdit)
    | SessionJob(session: Id, store: Id, cart: Id, customer: Option<Id>, lifetime: int, now: Time)
    | EvaluateJob(store: Id, request: FinalizeRequest, now: Time)
    | FinalizeJob(store: Id, request: FinalizeRequest, now: Time, at: Time, duration: int, drawn: Fresh)

  ghost predicate Sound(t: Tables, job: Job) {
    job.FinalizeJob? ==> AttemptFresh(t, job.request, job.drawn) && job.at != 0 && NO_ID !in t.snapshots
  }

  /** The tables the transaction leaves behind. */
  ghost function Outcome(t: Tables, job: Job): Tables
    requires Sound(t, job)
  {
    match job
    case OrderJob(order, c) => OrderStep(t, order, c)
    case CartJob(cart, store, item, sku, quantity) => AddCartItem(t, store, cart, item, sku, quantity).0
    case EditJob(cart, store, edit) => EditCart(t, store, cart, edit).0
    case SessionJob(session, store, cart, customer, lifetime, now) =>
      CreateCheckoutSession(t, session, store, cart, customer, lifetime, now).0
    case EvaluateJob(_, _, _) => t
    case FinalizeJob(store, request, now, at, duration, drawn) => FinalizeCheckout(t, store, request, now, at, duration, drawn).0
  }

  /** The row locks of an order command run on the given tables. */
  method OrderTrace(t: Tables, order: Id, c: OrderCommand) returns (locks: seq<Lock>)
    ensures Increasing(locks) && R.WritesLocked(t, OrderStep(t, order, c), locks)
  {
    hide Increasing, R.WritesLocked, ConfirmOrder, CancelPendingOrder, CancelConfirmedOrder, ExpirePendingOrder, AdvanceOrderStatus;
    var repo := new R.Repository(t);
    match c {
      case Confirm(store, now) => var _ := repo.ConfirmOrder(store, order, now);
      case CancelPending(store, authority, reason, now) => var _ := repo.CancelPendingOrder(store, order, authority, reason, now);
      case CancelConfirmed(store, authority, reason, now) => var _ := repo.CancelConfirmedOrder(store, order, authority, reason, now);
      case ExpirePending(now) => var _ := repo.ExpirePendingOrder(order, now);
      case Advance(store, target, authority, reason, now) => var _ := repo.AdvanceOrderStatus(store, order, target, authority, reason, now);
    }
    locks := repo.locks;
  }

  /** The row locks a transaction takes, in order, when it runs on the given tables: every
      row it rewrites is among them. */
  method Trace(t: Tables, job: Job) returns (locks: seq<Lock>)
    requires Sound(t, job)
    ensures Increasing(locks) && R.WritesLocked(t, Outcome(t, job), locks)
  {
    hide Increasing, AttemptFresh, R.WritesLocked, AddCartItem, EditCart, CreateCheckoutSession, FinalizeCheckout, OrderStep;
    var repo := new C.Checkouts(t);
    match job {
      case OrderJob(order, c) =>
        locks := OrderTrace(t, order, c);
        return;
      case CartJob(cart, store, item, sku, quantity) => var _ := repo.AddCartItem(store, cart, item, sku, quantity);
      case EditJob(cart, store, SetQuantity(item, quantity)) => var _ := repo.UpdateCartItemQuantity(store, cart, item, quantity);
      case EditJob(cart, store, RemoveItem(item)) => var _ := repo.RemoveCartItem(store, cart, item);
      case SessionJob(session, store, cart, customer, lifetime, now) =>
        var _ := repo.CreateCheckoutSession(session, store, cart, customer, lifetime, now);
      case EvaluateJob(store, request, now) =>
        var _ := repo.EvaluateCheckoutSession(store, request, now);
        R.NothingWritten(t, repo.locks);
      case FinalizeJob(store, request, now, at, duration, drawn) => var _ := repo.FinalizeCheckout(store, request, now, at, duration, drawn);
    }
    locks := repo.locks;
  }

  /** Any number of transactions, each on whatever tables it finds: each rewrites only rows
      it has locked, and stop them anywhere along their traces, none waits, through any
      others, for itself. */
  method Mix(tables: seq<Tables>, jobs: seq<Job>) returns (traces: seq<seq<Lock>>)
    requires |tables| == |jobs| && forall i :: 0 <= i < |jobs| ==> Sound(tables[i], jobs[i])
    ensures |traces| == |jobs| && DeadlockFree(traces)
    ensures forall i :: 0 <= i < |jobs| ==> R.WritesLocked(tables[i], Outcome(tables[i], jobs[i]), traces[i])
  {
    hide Sound, Increasing, DeadlockFree, R.WritesLocked, Outcome;
    traces := [];
    var i := 0;
    while i < |jobs|
      invariant 0 <= i <= |jobs| && |traces| == i
      invariant forall k :: 0 <= k < i ==> Increasing(traces[k])
      invariant forall k :: 0 <= k < i ==> R.WritesLocked(tables[k], Outcome(tables[k], jobs[k]), traces[k])
    {
      var one := Trace(tables[i], jobs[i]);
      traces := traces + [one];
      i := i + 1;
    }
    TracesDeadlockFree(traces);
  }
}
