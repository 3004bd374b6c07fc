/** The order transition matrix and the commands that go through it
    (modules/commerce/orders.go:198-279, order_repository.go:431-442,1498-1575). */
module Orders {
  import opened Base
  import opened Records

  /** ValidateOrderTransition; current is None for an order that does not exist yet. */
  function ValidateOrderTransition(
    current: Option<OrderStatus>, authority: Authority, target: OrderStatus, deadline: Time, now: Time): Option<Error>
  {
    if now == 0 then Some(InvalidInput)
    else match current
      case None => if target == Pending && authority == Checkout then None else Some(InvalidTransition)
      case Some(Pending) =>
        (match target
         case Confirmed =>
           if authority != Seller then Some(InvalidTransition)
           else if now >= deadline then Some(InvalidTransition)
           else None
         case Cancelled =>
           if authority == Customer || authority == Seller then None
           else if authority == Scheduler then (if now >= deadline then None else Some(InvalidTransition))
           else Some(InvalidTransition)
         case _ => Some(InvalidTransition))
      case Some(Confirmed) =>
        if target == Processing && authority == Seller then None
        else if target == Cancelled && authority == Seller then None
        else Some(InvalidTransition)
      case Some(Processing) =>
        if target == ReadyForShipping && authority == Seller then None
        else if target == Cancelled && authority == Seller then None
        else Some(InvalidTransition)
      case Some(_) => Some(InvalidTransition)
  }

  predicate Allowed(current: Option<OrderStatus>, authority: Authority, target: OrderStatus, deadline: Time,
      now: Time) {
    ValidateOrderTransition(current, authority, target, deadline, now).None?
  }

  /** Who may move an order where, and when. */
  predicate InMatrix(current: Option<OrderStatus>, authority: Authority, target: OrderStatus, deadline: Time, now: Time) {
    || (current == None && target == Pending && authority == Checkout)
    || (current == Some(Pending) && target == Confirmed && authority == Seller && now < deadline)
    || (current == Some(Pending) && target == Cancelled && authority in {Customer, Seller})
    || (current == Some(Pending) && target == Cancelled && authority == Scheduler && now >= deadline)
    || (current == Some(Confirmed) && target in {Processing, Cancelled} && authority == Seller)
    || (current == Some(Processing) && target in {ReadyForShipping, Cancelled} && authority == Seller)
  }

  lemma AllowedExactly(current: Option<OrderStatus>, authority: Authority, target: OrderStatus, deadline: Time, now: Time)
    ensures Allowed(current, authority, target, deadline, now) <==> now != 0 && InMatrix(current, authority, target, deadline, now)
  {
  }

  predicate NeutralAdvance(from: OrderStatus, to: OrderStatus, authority: Authority) {
    authority == Seller && ((from == Confirmed && to == Processing) || (from == Processing && to == ReadyForShipping))
  }

  /** Confirm and expire are never both allowed, the exact deadline included; once the
      deadline has passed only cancellation is left. */
  lemma ConfirmAndExpireExclusive(deadline: Time, now: Time)
    requires now != 0
    ensures Allowed(Some(Pending), Seller, Confirmed, deadline, now) <==>
            !Allowed(Some(Pending), Scheduler, Cancelled, deadline, now)
  {
  }

  /** Progress of an order: every allowed move strictly increases it, so no run of an
      order revisits a status and every run is at most five moves long. */
  function Rank(s: Option<OrderStatus>): nat {
    match s
    case None => 0
    case Some(Pending) => 1
    case Some(Confirmed) => 2
    case Some(Processing) => 3
    case Some(ReadyForShipping) => 4
    case Some(_) => 5
  }

  lemma AllowedProgresses(from: Option<OrderStatus>, authority: Authority, to: OrderStatus, deadline: Time, now: Time)
    requires Allowed(from, authority, to, deadline, now)
    ensures Rank(from) < Rank(Some(to))
    ensures to in {Pending, Confirmed, Processing, ReadyForShipping, Cancelled}
  {
  }
}
