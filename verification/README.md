# Commerce core, modelled and proved

A Dafny model of the transactional core of a multi-tenant commerce platform and proofs of
what its protocols guarantee. Five pieces of state are modelled, each as atomic
transactions on tables held as maps, with rollback on error:

1. **Checkout, orders and stock.** A finalize turns a cart into an order: it revalidates
   every line, plans one snapshot per line, holds the stock and writes order, timeline and
   outbox event. Confirm, cancel, restock, expire and advance then move order, reservations
   and counters together. (`Records`, `Tables`, `Checkout`, `Finalize`, `Orders`,
   `Inventory`, `Money`, `Fingerprints` give the data and the steps; `Ledger`,
   `Settlements`, `Stockroom`, `Holding`, `Histories`, `Sessions`, `Placement`, `Commands`,
   `Purchases` what each step keeps; `Acceptance`, `Plans`, `Receipts`, `Effects`,
   `CartEffects`, `SessionEffects` when each operation succeeds and what it leaves, field by
   field; `Runs`, `Guarantees`, `Endings`, `RoundTrips`, `Carts`, `Expiry` what every run
   guarantees; `Scenario` one complete sale; `Repository`, `CheckoutRepository`,
   `ExpiryWorker` the transactions as classes and loops; `Locks` and `Concurrency` the lock
   order and what follows for any mix of transactions.)
2. **Outbox leases.** Many workers claim, renew, publish, mark and release events under
   timed leases. (`Leases`, `Outbox`, `Workers`.)
3. **Storefront cache generation.** Writers bump a per-store generation in their own
   transaction and readers take it before a multi-statement payload, a seqlock in effect.
   (`Catalogue`, `Closure`, `Categories`, `Availability`, `Cache`, `Traffic`.)
4. **Theme drafts.** Optimistic concurrency on the draft revision with validation outside
   the transaction. (`Themes`, `ThemeStores`, `ThemeUpgrades`, `ThemeClients`.)
5. **Store domains.** Activation, moderation and fallback, with DNS verification as a
   racing read and conditional write. (`Domains`, `DomainOperations`.)

Conventions. Identifiers are natural numbers ordered like UUID text, 0 the empty string.
Times are microseconds. A transaction is a function from tables to tables and a result;
an error returns the tables it was given. Clock readings, drawn identifiers, DNS answers,
publish outcomes, database failures and cancellation are arguments or arbitrary choices,
so every theorem holds for all of them. An interleaving of transactions is a sequence of
steps with any arguments. Fields marked as history (a snapshot's initial quantity, the log
of the outbox, the drafts a theme installation ever held) are written once and read by no
operation. Money, quantities of cart lines and prices are 64-bit with Go's wrap-around;
stock counters are unbounded.

Three findings. `checkedMultiply` misses one overflow, (-2^63, -1): its test divides the
wrapped product, and Go defines the most negative integer divided by -1 as itself. Its
callers pass non-negative prices and positive quantities only, so no total is affected
(`Amounts.SubtotalExact`).

The allocation of a cart takes, line by line, the least snapshot id that carries the whole
line. It serves every cart that can be served as long as each SKU is on one line
(`Plans.OneLineEachAccepted`); two lines of one SKU, added under two listings of its
product, may be refused although their stock would do (`Plans.LeastIdMisses`).

And published content need not satisfy the schema of the version installed now. Exactly
two kinds of step break it (`ThemeUpgrades.WhatBreaksFit`): an upgrade, which validates
the draft only, and a publish validated against a version that an upgrade has replaced
since. An upgrade is harmless for every target that accepts the draft if and only if the
document published when it commits is the draft it validated
(`ThemeUpgrades.UpgradeFitsExactly`); checking that at the read is not enough, because
another publish may come between (`ThemeUpgrades.RaceBreaksFit`), but it becomes exact when
the published revision is compared at the write (`ThemeUpgrades.GuardedUpgradeExact`). With
that check and a publisher that compares the installed version the property holds in every
run (`ThemeUpgrades.GuardedRunFits`). The theorem about published content
(`Themes.PublishedWasValidated`) speaks of the version its publisher read.

## Model

| member | source | states |
|---|---|---|
| `Money.CheckedAddExact` | modules/commerce/checkout_session.go:254-260 | over all pairs of 64-bit integers, wrap-around included, the checked addition reports an error exactly when the mathematical sum leaves the range |
| `Money.CheckedMultiplyExact` | modules/commerce/checkout_session.go:243-252 | the checked multiplication answers for the mathematical product on all pairs if and only if the pair is not (-2^63, -1) |
| `Money.CheckedMultiplyMissesMinTimesMinusOne` | modules/commerce/checkout_session.go:243-252 | the one wrong answer: -2^63 times -1 is accepted as -2^63 because Go's quotient wraps |
| `Amounts.SubtotalExact` | modules/commerce/checkout_session.go:593-604 | with every line revalidated and stocked, a cart is accepted if and only if its mathematical total fits in 64 bits; then the subtotal is that total and each line total is price times quantity |
| `Amounts.RecomputationIsSafe` | modules/commerce/checkout_session.go:611-626 | the second multiplication, whose error is dropped, always succeeds with the line total already computed |
| `Amounts.DemandFits` | modules/commerce/checkout_session.go:611-621 | neither the cumulative demand on a snapshot nor what is left of its stock leaves 64 bits |
| `Fingerprints.SortFingerprintLines` | modules/commerce/checkout_session.go:118-124 | the in-place loop leaves the array holding the insertion sort of what it held |
| `Fingerprints.SortPermutes` | modules/commerce/checkout_session.go:118-124 | sorting only reorders: same multiset of lines |
| `Fingerprints.SortOrders` | modules/commerce/checkout_session.go:118-124 | the result is ordered by listing, then SKU |
| `Fingerprints.SortCanonical` | modules/commerce/checkout_session.go:118-124 | every permutation of uniquely keyed lines sorts to one sequence, so line order cannot change a fingerprint |
| `Fingerprints.ComputeFinalizeFingerprint` | modules/commerce/checkout_session.go:86-116 | the fingerprint is the canonical input of session, cart, customer, address, e-mail and sorted lines, and the inputs rejected are exactly the malformed ones |
| `SessionEffects.FingerprintTells` | modules/commerce/checkout_session.go:86-116 | two accepted requests on loaded carts have one fingerprint if and only if session, cart, customer, address, e-mail and every line's listing, SKU, quantity, price and currency agree |
| `Inventory.AllocateLineSnapshot` | modules/commerce/inventory_lifecycle.go:30-50 | returns the least id among the candidates that can carry the whole line after cumulative demand, whatever order the candidates come in; errors exactly when there is none or the quantity is not positive |
| `Inventory.AllocationExact` | modules/commerce/inventory_lifecycle.go:30-50 | found exactly when the quantity is positive and some candidate has that much on hand beyond what is reserved and what earlier lines took; it is the one with the least id |
| `Inventory.PlanIsPlan` | modules/commerce/checkout_session.go:606-627 | the per-line loop with its cumulative map makes, at each line, the least fitting choice given all earlier choices |
| `Inventory.PlanUnique` | modules/commerce/checkout_session.go:606-627 | there is only one such plan, so map iteration order cannot matter |
| `Inventory.PlanSufficient` | modules/commerce/checkout_session.go:606-662 | at every prefix a plan takes no more of a snapshot than is available there |
| `Acceptance.PlanExact` | modules/commerce/checkout_session.go:606-627 | the loop succeeds if and only if the least-id rule can carry every line whole after the lines before it |
| `Plans.ApartExact` | modules/commerce/checkout_session.go:606-627 | while no two lines want the same snapshot the least-id rule misses nothing: it succeeds if and only if some choice of snapshots serves all lines, and that is when each line can be served alone |
| `Plans.OneLineEachAccepted` | modules/commerce/checkout_session.go:450-627 | so a cart with one line a SKU is accepted if and only if every line is current and has its quantity in one snapshot that may serve it, and the true total fits in 64 bits |
| `Plans.LeastIdMisses` | modules/commerce/inventory_lifecycle.go:30-50 | lines that share snapshots can be refused though other choices serve them: three and five units, five at the lesser id and three at the other |
| `Inventory.AggregateReservationsBySnapshot` | modules/commerce/inventory_lifecycle.go:154-175 | one entry per snapshot, in id order, with the sum of its reservations |
| `Inventory.QuantityOnRows` | modules/commerce/inventory_lifecycle.go:154-175 | the sum over locked rows is the sum over the reservation table, so aggregation conserves quantity |
| `Holding.HoldSucceeds` | modules/commerce/checkout_session.go:649-662 | after the holds of all earlier lines, HoldReservation of the next line still succeeds: its error return is unreachable |
| `Holding.HeldCounters` | modules/commerce/inventory_lifecycle.go:63-145 | the holds raise each snapshot's reserved counter by exactly its planned total and change no other counter |
| `Holding.HeldRows` | modules/commerce/inventory_lifecycle.go:113-128 | each line gets its own held reservation with its quantity, snapshot and deadline; no existing reservation changes |
| `Holding.HeldJournal` | modules/commerce/inventory_lifecycle.go:63-145 | every snapshot gets one held movement row per line placed on it, in line order, with the counters it left; reserved and version move with them and nothing else does |
| `Holding.HoldsBalance` | modules/commerce/inventory_lifecycle.go:63-145 | the ledger balances after all holds if it did before |
| `Ledger.SettledCounters` | modules/commerce/order_repository.go:608-657 | a settlement keeps 0 <= reserved <= on hand and reserved equal to the sum of held reservations, on every snapshot |
| `Ledger.SettledHistory` | modules/commerce/order_repository.go:608-657 | a settlement keeps on hand equal to initial plus all movements, and to initial plus adjustments minus the consumption of orders not cancelled |
| `Settlements.SettleSucceeds` | modules/commerce/order_repository.go:592-616 | an order whose reservations stand where its status says always settles: the fail-closed branches are unreachable |
| `Settlements.SettledOrders` | modules/commerce/order_repository.go:659-671 | marking one order's reservations leaves every other order in agreement with its own |
| `Stockroom.HoldKeepsBooks` | modules/commerce/repository.go:805-851 | a single hold, with or without a movement row, keeps the ledger |
| `Stockroom.AdjustKeepsBooks` | modules/commerce/platform_repository.go:561-639 | an adjustment that passes the guard keeps the ledger |
| `Stockroom.CreateKeepsBooks` | modules/commerce/repository.go:758-777 | a new snapshot starts a balanced account |
| `Orders.ConfirmAndExpireExclusive` | modules/commerce/orders.go:198-279 | at every instant, the exact deadline included, exactly one of seller confirmation and scheduler expiry is allowed for a pending order |
| `Orders.AllowedProgresses` | modules/commerce/orders.go:198-279 | every allowed transition strictly raises the order's progress and reaches only the five live statuses |
| `Orders.AllowedExactly` | modules/commerce/orders.go:198-279 | the transition check allows exactly nine moves, written out with authority, deadline and the clock that must be set |
| `Histories.TransitionKeepsTrace` | modules/commerce/order_repository.go:673-690 | order row, timeline row and outbox event written together keep the timeline a connected path ending at the status and the event versions without gaps |
| `Histories.StatusesNeverRepeat` | modules/commerce/order_repository.go:673-690 | no status appears twice in a timeline |
| `Histories.VersionBounded` | modules/commerce/order_repository.go:673-690 | row i of a timeline has progress at least i + 1, so an order has at most five rows |
| `Commands.ConfirmExact` | modules/commerce/order_repository.go:487-693 | in any reachable state confirmation succeeds if and only if the order is confirmed already or pending before its deadline; otherwise invalid transition and nothing changes; success is a move of this order only, allowed to the seller at that time |
| `Commands.CancelPendingExact` | modules/commerce/order_repository.go:722-913 | the same for cancellation while pending, by customer or seller |
| `Commands.CancelConfirmedExact` | modules/commerce/order_repository.go:939-1113 | the same for cancellation with restock of a confirmed or processing order, by the seller |
| `Commands.ExpireExact` | modules/commerce/order_repository.go:1136-1332 | expiry never errs: it cancels exactly the pending orders that are due and is a no-op on all others, missing ones included |
| `Commands.AdvanceExact` | modules/commerce/order_repository.go:1397-1495 | advance succeeds if and only if the order is at the target or the step is one of the two inventory-neutral ones; no stock row changes |
| `Effects.ConfirmSays` | modules/commerce/order_repository.go:608-690 | a confirmation that moves: every reservation of the order and no other is consumed, each touched snapshot loses the order's units on hand and reserved with one consumed movement, and order, timeline and event rows are as spelled out, by the seller |
| `Effects.CancelPendingSays` | modules/commerce/order_repository.go:830-913 | a pending cancellation that moves: every reservation of the order is released, reserved alone falls with one released movement per snapshot, and the timeline names customer or seller and the reason given |
| `Effects.CancelConfirmedSays` | modules/commerce/order_repository.go:1040-1113 | a cancellation after confirmation: reservations stay consumed, the units come back on hand with one restock movement per snapshot, reserved stands still |
| `Effects.ExpireSays` | modules/commerce/order_repository.go:1237-1332 | an expiry that moves: every reservation of the order is expired, reserved alone falls with one expired movement per snapshot, by the scheduler with the timeout reason |
| `Effects.AdvanceSays` | modules/commerce/order_repository.go:1440-1495 | an advance is one of the two seller moves; order, timeline and event say so, no stock row changes, and a reason given replaces the old one |
| `Effects.OtherStoresOrders` | modules/commerce/order_repository.go:487-1495 | no command of one store reaches an order of another: it is not found, or invalid without identifiers, and nothing changes |
| `Sessions.GrowKeepsCheckout` | modules/commerce/customer_cart.go:283-300 | steps that leave finalized sessions and checked-out carts alone keep the session, cart, order and number invariants |
| `SessionEffects.StartExact` | modules/commerce/checkout_session.go:126-168 | a session opens exactly for an active cart of the store, the cart's own customer and a lifetime of zero or at least a second; it lasts half an hour for zero, else the lifetime in whole seconds, and nothing else changes |
| `SessionEffects.EvaluateExact` | modules/commerce/checkout_session.go:174-230 | evaluation answers exactly for an open unexpired session of an active cart or a finalized one with the same fingerprint, and calls only the latter a replay |
| `Placement.CloseKeepsCheckout` | modules/commerce/checkout_session.go:748-776 | a committed finalize keeps finalized sessions and orders in bijection, one session per checked-out cart and gap-free numbers |
| `Placement.NumberTaken` | modules/commerce/order_repository.go:33-50 | taking the number the sequence names keeps each store's numbers exactly 100001 up to the sequence |
| `Placement.SlotsFree` | modules/commerce/checkout_session.go:719-727 | the unique indexes on session and on store and number can never reject an order placed from an open session |
| `Purchases.NewOrderKeepsInv` | modules/commerce/checkout_session.go:688-776 | order, holds, timeline, event, session and cart written together keep every invariant |
| `Purchases.ReplayExact` | modules/commerce/checkout_session.go:338-354 | a finalized session answers the request it was finalized with by its own order, any other by an idempotency conflict, and changes nothing |
| `Purchases.FinalizeOutcome` | modules/commerce/checkout_session.go:262-792 | every finalize attempt keeps every invariant; an error leaves the tables as they were |
| `Receipts.PlacedOrderSays` | modules/commerce/checkout_session.go:593-776 | the order a finalize places, field by field: total and subtotal are the sum of price times quantity over the cart's lines, each line repeats its cart line, the catalogue's names and the offer's cost, names the location of the snapshot its own new reservation holds until the deadline, and number, customer, market, address, deadline and currency come from sequence, session, cart, request and catalogue; all rows written and all snapshots moved are spelled out |
| `Acceptance.RevalidateExact` | modules/commerce/checkout_session.go:450-562 | a line is refused exactly when its listing is not the store's, inactive, of another market or currency or at another price than the line's, or product, variant, SKU or offer is out of sale |
| `Acceptance.CurrentIsEligible` | modules/commerce/checkout_session.go:450-562 | in an active store's market checkout accepts a line exactly when the storefront lists it and it agrees with the listing, the SKU and the offer's currency |
| `Acceptance.CandidatesServe` | modules/commerce/checkout_session.go:564-592 | the snapshots a line may use are those of its SKU at an active location of the market that belongs to the store, or to the supplier of the listing's offer |
| `Acceptance.CartAccepted` | modules/commerce/checkout_session.go:450-627 | a cart is accepted if and only if every line is current, the true total fits in 64 bits and there is a plan for all lines together |
| `Acceptance.FinalizeExact` | modules/commerce/checkout_session.go:262-776 | the whole condition: a session not finalized before places its order if and only if session, cart, store and request are as they must be and every line is current, recordable, payable in 64 bits and in stock beside the others |
| `Purchases.CartInvariantHolds` | modules/commerce/checkout_session.go:305-307 | the cart-invariant error is unreachable for finalize and evaluation |
| `Runs.OrderStepAllowed` | modules/commerce/orders.go:198-279 | every order command that changes anything is one move that ValidateOrderTransition allows its authority at its decision time, on one order; any other leaves the tables untouched |
| `Runs.StepKeepsInv` | modules/commerce/repository.go:33-51 | every transaction, with any arguments, keeps the global invariant, finalized sessions, checked-out carts and all but status, reason, version and update time of orders |
| `Runs.RunKeepsInv` | modules/commerce/repository.go:33-51 | the same over every interleaving of any number of transactions |
| `Guarantees.StockConserved` | modules/commerce/order_repository.go:608-657 | in every reachable state and for every snapshot: 0 <= reserved <= on hand, reserved is the sum of held reservations, on hand is initial plus movements and is initial plus adjustments minus consumption by orders not cancelled |
| `Guarantees.OrdersAgreeWithStock` | modules/commerce/order_repository.go:1237-1316 | in every reachable state each order's reservations have the status, quantity and deadline it calls for and belong to no other order |
| `Endings.RunEnds` | modules/commerce/order_repository.go:722-1332 | every transaction keeps how cancelled orders ended |
| `Endings.CancelledOrdersEnded` | modules/commerce/order_repository.go:722-1332 | in every reachable state the last timeline row of a cancelled order tells its stock: cancelled by the scheduler all its reservations are expired, by customer or seller while pending all released, by the seller after confirmation all consumed |
| `Guarantees.HistoryIsAPath` | modules/commerce/order_repository.go:673-690 | in every reachable state each timeline is a path of allowed moves with one row per version, the events carry versions 1..n, and there are at most five |
| `Guarantees.SessionsMatchOrders` | modules/commerce/checkout_session.go:688-776 | in every reachable state finalized sessions and orders are in bijection |
| `Guarantees.OneOrderPerCart` | modules/commerce/checkout_session.go:305-317 | over all runs a cart becomes at most one order and is checked out exactly when it has one |
| `Guarantees.NumbersHaveNoGap` | modules/commerce/order_repository.go:33-50 | over all runs a store's orders are numbered 100001 upward, each number once, without gaps from rolled-back attempts |
| `Guarantees.CartInvariantNeverFires` | modules/commerce/checkout_session.go:305-307 | no reachable state makes finalize or evaluation report a broken cart |
| `Guarantees.RetryReturnsTheOrder` | modules/commerce/checkout_session.go:338-354 | after a successful finalize and any further run, the same request at any later time returns the same order and changes nothing |
| `Guarantees.StalePeekIsHarmless` | modules/commerce/order_repository.go:1498-1575 | whatever status was read before the lock, the step that commits is allowed from the stored status; with a current read the call succeeds exactly when the order is at its target or the matrix allows the move |
| `RoundTrips.CancelEitherWay` | modules/commerce/order_repository.go:939-1113 | confirm then cancel leaves every stock counter where cancelling at once would: the consumed stock is put back exactly once |
| `RoundTrips.CancelUndoesCheckout` | modules/commerce/order_repository.go:722-913 | a placement followed by a cancellation while pending restores every counter of every snapshot |
| `Expiry.CandidateExpires` | apps/workers/scheduler/expiry_worker.go:47-63 | in any run in which the scheduler gets to a discovered candidate, among whatever else commits, the candidate is not pending at the end |
| `Expiry.OverdueExact` | modules/commerce/order_repository.go:1335-1347 | the discovery query selects exactly the orders the scheduler may cancel |
| `Expiry.PendingNeverReturns` | modules/commerce/order_repository.go:1136-1332 | an order that has left pending is never pending again |
| `Expiry.CandidatesCut` | modules/commerce/order_repository.go:1335-1347 | because candidates come earliest deadline first, candidates discovered at a later time take from what was due at an earlier one as many orders as the limit allows |
| `Expiry.StepDue` | modules/commerce/order_repository.go:1136-1332 | with a clock that does not run backwards no transaction makes an order overdue at a time that has passed |
| `Expiry.PassDrains` | modules/commerce/order_repository.go:1335-1365 | a pass with nothing else going on removes exactly its candidates from the orders due at any time up to its discovery, so their number drops by the smaller of the limit and that number |
| `Expiry.PassesDrain` | apps/workers/scheduler/expiry_worker.go:31-63 | passes that each discover at their own later time, with any other transactions between and during them, clear at least the limit each of what was due at the start; once passes times limit reaches that count none of it is overdue |
| `Expiry.QuietPassesDrain` | apps/workers/scheduler/expiry_worker.go:31-63 | without other transactions the count after n passes is exactly the initial one less n times the limit, at least zero |
| `ExpiryWorker.DiscoverExpiryCandidates` | modules/commerce/order_repository.go:1334-1365 | returns pending orders past their deadline, the earliest deadlines first, as many as there are up to the limit or its default of 100 |
| `ExpiryWorker.ProcessBatch` | apps/workers/scheduler/expiry_worker.go:47-63 | discovery, then the loop with cancellation after any number of orders and errors logged only, performs exactly the run of its expirations; a pass that is not cancelled clears what the limit allows of what was due at any time up to its discovery |
| `Repository.LockSnapshotsByIDs` | modules/commerce/order_repository.go:352-384 | returns the existing rows among the ids and takes their locks in id order |
| `Repository.LockReservationsByIDs` | modules/commerce/order_repository.go:386-418 | the same for reservations, rows in id order |
| `Repository.CheckRows` | modules/commerce/order_repository.go:595-606 | returns the first failing reservation check in id order, or none |
| `Repository.Repository.SettleSnapshots` | modules/commerce/order_repository.go:608-657 | the loop over aggregates rewrites exactly the touched snapshots by their sums, or stops at the first misfit |
| `Repository.Repository.MoveOrder` | modules/commerce/order_repository.go:1299-1332 | order row, timeline row and event are written together; the update guarded by the status read under the lock always finds its row, so the conflict of the other commands and the silent zero-rows return of expiry are unreachable |
| `Repository.Repository.ConfirmOrder` | modules/commerce/order_repository.go:467-693 | the transaction computes the confirmation step on the tables, rolls back on error, locks in increasing order and rewrites only rows it has locked |
| `Repository.Repository.CancelPendingOrder` | modules/commerce/order_repository.go:696-913 | the same for cancellation while pending |
| `Repository.Repository.CancelConfirmedOrder` | modules/commerce/order_repository.go:916-1113 | the same for cancellation with restock |
| `Repository.Repository.ExpirePendingOrder` | modules/commerce/order_repository.go:1116-1332 | the same for expiry |
| `Repository.Repository.AdvanceOrderStatus` | modules/commerce/order_repository.go:1368-1495 | the same for the inventory-neutral advances |
| `Repository.Repository.AdjustInventory` | modules/commerce/platform_repository.go:561-639 | succeeds exactly on an existing row with a movement type when what is reserved still fits, moves that row by the delta with one movement row saying so, leaves everything alone on error, keeps every invariant and never moves public output under an old generation |
| `Repository.Repository.ReserveInventory` | modules/commerce/repository.go:805-851 | succeeds exactly when the quantity is positive and available and the identifiers are good, takes it from what is available of that row, writes no movement, keeps every invariant and never moves public output under an old generation |
| `Repository.Repository.CreateInventorySnapshot` | modules/commerce/repository.go:758-777 | succeeds exactly with an unused identifier, an unused pair of a known location and a known SKU and no negative quantity; adds that one row with nothing reserved, leaves everything alone on error, keeps every invariant and never moves public output under an old generation |
| `CheckoutRepository.DiscoverCandidates` | modules/commerce/checkout_session.go:370-402 | the union of the lines' candidate queries, each id once |
| `CheckoutRepository.CandidatesLocked` | modules/commerce/checkout_session.go:564-592 | filtering the locked rows finds every candidate the whole table would give: whatever a revalidated line may use was discovered and locked before |
| `CheckoutRepository.RevalidateLines` | modules/commerce/checkout_session.go:450-604 | the loop over lines equals the line-by-line specification on the whole snapshot table though it reads locked rows only |
| `CheckoutRepository.AllocateLines` | modules/commerce/checkout_session.go:606-627 | the allocation loop with its cumulative map equals the plan |
| `CheckoutRepository.HoldReservation` | modules/commerce/inventory_lifecycle.go:63-145 | a hold that succeeds takes its quantity from what is available of one snapshot, changes no other and keeps a balanced ledger balanced; its errors are those of the guards |
| `CheckoutRepository.HoldLines` | modules/commerce/checkout_session.go:649-686 | the hold loop never takes its error return and touches only rows already locked |
| `CheckoutRepository.CreateOrder` | modules/commerce/order_repository.go:66-160 | the checks and unique constraints of the insert, item by item |
| `CheckoutRepository.Checkouts.FinalizeCheckout` | modules/commerce/checkout_session.go:262-792 | the transaction computes the finalize step on the tables, replay and rollback included, locks session, cart, snapshots by id and order sequence in increasing order and rewrites only rows it has locked |
| `CheckoutRepository.Checkouts.EvaluateCheckoutSession` | modules/commerce/checkout_session.go:174-230 | evaluation computes the decision without changing a row and locks in increasing order |
| `CheckoutRepository.Checkouts.CreateCheckoutSession` | modules/commerce/checkout_session.go:126-168 | the transaction computes the new open session or its error |
| `CheckoutRepository.Checkouts.AddCartItem` | modules/commerce/customer_cart.go:220-261 | the transaction computes the upsert of the canonical listing's line with the 10000 limit on an active cart |
| `CheckoutRepository.Checkouts.UpdateCartItemQuantity` | modules/commerce/customer_cart.go:263-300 | the transaction computes the quantity change on an active cart |
| `CheckoutRepository.Checkouts.RemoveCartItem` | modules/commerce/customer_cart.go:273-300 | the transaction computes the removal on an active cart |
| `Checkout.CanonicalListingExact` | modules/commerce/customer_cart.go:199-218 | the listing a cart line resolves to is the canonical one, and none exactly when none is eligible |
| `Carts.RunKeepsCarts` | modules/commerce/customer_cart.go:220-331 | over every run each cart's lines are in (listing, SKU) order, one per pair, with quantities from 1 to 10000 |
| `CartEffects.AddExact` | modules/commerce/customer_cart.go:220-261 | adding succeeds exactly when an active cart of the store gets a SKU sold there under a canonical listing in the market's currency and the line stays within 10000; that one line then holds the old quantity plus the added one at the present price, every other line is kept, and a failure writes nothing |
| `CartEffects.AddRefusals` | modules/commerce/customer_cart.go:220-261 | which error each refusal reports |
| `CartEffects.EditExact` | modules/commerce/customer_cart.go:263-300 | a change or removal succeeds exactly on an active cart of the store with a quantity from 1 to 10000; it gives the named line that quantity in place or takes that line away, and keeps all others |
| `CartEffects.CreateExact` | modules/commerce/customer_cart.go:141-160 | a cart is created empty and active exactly for a store in its own market whose customer, if named, has no active cart there |
| `CartEffects.RunKeepsOne` | modules/commerce/customer_cart.go:141-160 | over every run a customer has at most one active cart in a store |
| `Carts.LoadedCartIsSorted` | modules/commerce/checkout_session.go:107-109 | so the fingerprint's sort leaves a loaded cart as it is, and brings any other order of its lines to the same sequence |
| `Scenario.SaleHappens` | modules/commerce/checkout_session.go:262-792 | a run from the empty database places an order and confirms it: all the checks of a finalize can pass together |
| `Locks.NoDeadlock` | modules/commerce/checkout_session.go:276-415 | any number of transactions that lock in the order session, cart, order, snapshots by id, reservations by id, sequence have no cycle in their wait-for graph |
| `Locks.SettlementOrdered` | modules/commerce/order_repository.go:487-592 | the trace of an order command follows that order |
| `Locks.FinalizeOrdered` | modules/commerce/checkout_session.go:276-415 | the trace of a finalize follows that order |
| `Locks.TracesDeadlockFree` | modules/commerce/checkout_session.go:276-415 | transactions with increasing traces, each stopped anywhere along its trace, never wait for themselves through any others |
| `Concurrency.Mix` | modules/commerce/checkout_session.go:126-415 | any number of finalize, evaluate, session, cart and order transactions, each on whatever tables it finds: each rewrites only rows it has locked, and there is no deadlock wherever they stand |
| `Leases.RenewOrSteal` | packages/outbox/outbox.go:80-153 | at each instant a leased row can be renewed by its holder or taken by another claim, never both and never neither |
| `Leases.LeaseHolds` | packages/outbox/outbox.go:146-153 | after a successful renewal at t nobody else takes the event through t + lease, whatever statements the others run |
| `Leases.MarkInTimeSucceeds` | packages/outbox/outbox.go:235-257 | a publish marked by t + lease is always marked |
| `Leases.OwnerChange` | packages/outbox/outbox.go:80-100 | an unpublished event leaves its holder only by release or by a lease that expired |
| `Leases.SecondPublish` | packages/outbox/processor.go:142-247 | among disciplined workers any second publish of an event is by another claim, and between the renewals the two published under lies a release or the taking of an expired lease |
| `Leases.NoFalseMark` | packages/outbox/outbox.go:235-257 | among disciplined workers an event that became published was published before by the very claim that marked it |
| `Leases.DisciplineLifts` | packages/outbox/processor.go:116-248 | what a worker keeps over its own batch it keeps over the whole history, as its claim is used nowhere else |
| `Leases.PublishedOnce` | packages/outbox/outbox.go:235-282 | a published row is frozen: never reclaimed, re-marked or released |
| `Leases.DelayBounds` | packages/outbox/outbox.go:259-282 | release delays lie between 1 and 64 seconds |
| `Leases.DelayDoubles` | packages/outbox/outbox.go:259-282 | the delay starts at one second, doubles with each attempt up to the sixth and stays at 64 |
| `Leases.ReleaseBackoff` | packages/outbox/outbox.go:259-282 | over any log the release number n + 1 of a row that began with no attempts leaves it due two to the n seconds, six at most in the exponent, after its write |
| `Leases.StatementsExact` | packages/outbox/outbox.go:80-282 | which rows each statement touches, written out: claim, renewal, renewal near expiry, mark and release |
| `Leases.ClaimableInBoundedTime` | packages/outbox/outbox.go:80-100 | every unpublished event is claimable again after the longer of one lease and 64 seconds, whatever happened to it |
| `Outbox.Table.ClaimBatch` | packages/outbox/outbox.go:67-119 | takes only rows unpublished, due, not locked and unleased or expired, the first by next attempt, creation and id, leaving one out only when the batch is full; each becomes leased to the claim from that moment and no other row changes |
| `Outbox.Table.RenewAndLoadEvent` | packages/outbox/outbox.go:121-201 | renews exactly a live lease of the claim; a lost claim changes nothing; a malformed envelope is reported after the renewal |
| `Outbox.Table.RenewBatchNearExpiry` | packages/outbox/outbox.go:203-233 | applies, to each given id and no other row, a renewal that takes effect exactly when the claim's lease is alive and within the margin of its end |
| `Outbox.Table.MarkPublished` | packages/outbox/outbox.go:235-257 | succeeds exactly for the holder of an unpublished row and clears the lease |
| `Outbox.Table.ReleaseWithBackoff` | packages/outbox/outbox.go:259-282 | succeeds exactly for the holder, counts the attempt, drops the lease and makes the row due 1, 2, 4, 8, 16, 32 or 64 seconds later by its attempts |
| `Workers.Processor.ProcessEvent` | packages/outbox/processor.go:142-247 | one event among any number of other workers: it publishes only under its own renewal and only a well-formed event of the two order types, marks only what it published, releases only what it did not, and leaves the event published, released or lost |
| `Workers.Processor.ProcessBatch` | packages/outbox/processor.go:116-248 | of the claimed ids the first ones end published, released or lost, those after the one being worked on are neither published, marked nor released by the claim, also after a failure right behind the claim; the returned count and error say how the batch ended |
| `Workers.KeepsWorking` | packages/outbox/processor.go:142-247 | nothing other workers do unsettles an event the batch has dealt with |
| `Workers.BatchJoins` | packages/outbox/processor.go:116-248 | the state a batch leaves behind makes its claim one batch of the history, whatever came before it and comes after |
| `Workers.FleetIsDisciplined` | packages/outbox/processor.go:116-248 | in a history made of any number of batches, finished or not, every claim is disciplined on every event |
| `Workers.FleetIsSafe` | packages/outbox/processor.go:78-248 | so over any history of any number of workers no event is falsely marked, and two publishes of an event are separated by a release or an expired lease |
| `Workers.NewEventOpen` | packages/outbox/processor.go:116-248 | a batch under way when an event appears never publishes, marks or releases it |
| `Catalogue.CanonicalUnique` | modules/catalog/selection.go:13-57 | a store and product have at most one canonical listing |
| `Catalogue.CanonicalExists` | modules/catalog/selection.go:13-57 | and have one whenever any listing is eligible |
| `Catalogue.SnapshotWriteCovered` | modules/commerce/storefront_revision.go:39-84 | any store whose availability of any SKU changes when a snapshot row is rewritten is returned by the inventory selector |
| `Catalogue.SnapshotWriteCoversProduct` | modules/storefront/catalog_repository.go:54-86 | the same for the product's in_stock bit |
| `Catalogue.SnapshotInsertCovered` | modules/commerce/storefront_revision.go:76-82 | a new snapshot can only change availability in stores listing its SKU's product |
| `Catalogue.LocationStatusCovered` | modules/commerce/storefront_revision.go:86-88 | a location's status only reaches stores its selector returns |
| `Catalogue.BumpAdvances` | modules/commerce/storefront_revision.go:113-124 | a bump adds one to exactly the selected stores, a missing row reading as one |
| `Availability.SkuInStockExact` | modules/storefront/catalog_repository.go:54-86 | a SKU shows as in stock if and only if its canonical listing may sell it and checkout could allocate one unit for it: some snapshot at an active location of the market, owned by the listing's source, has a unit neither sold nor reserved |
| `Availability.InStockExact` | modules/storefront/catalog_repository.go:54-86 | the product's bit is on exactly when that holds for some SKU of it |
| `Availability.LastUnitsHeld` | modules/storefront/catalog_repository.go:79-83 | holding all that is available of the only snapshot that serves a SKU turns its bit off, and releasing the hold turns it on again |
| `Availability.CanonicalIsNewest` | modules/catalog/selection.go:13-57 | the canonical listing is the eligible one created last, by id among those created together |
| `Availability.SelectedStoresList` | modules/commerce/storefront_revision.go:39-88 | no store is selected for nothing: it lists the SKU's product, and sells from the source of the row or location |
| `Categories.SelectorExact` | modules/commerce/storefront_revision.go:90-103 | a category write selects exactly the stores that list a product of the category or of one under it, in any graph |
| `Availability.TreeExact` | modules/storefront/catalog_repository.go:187-221 | the public tree holds exactly the active categories at or above an active category in which the store publishes a product |
| `Availability.NodeExact` | modules/storefront/catalog_repository.go:206-221 | what a node says: own slug, name in the locale, else the fallback, else the slug, active parent's slug and number of products published in it |
| `Closure.ReachableIsLed` | modules/storefront/catalog_repository.go:197-205 | the recursive query terminates, cycles included, and computes exactly the nodes some path leads to |
| `Closure.ReverseDual` | modules/commerce/storefront_revision.go:92-97 | ancestor and descendant closure are dual |
| `Categories.SubtreeUnchanged` | modules/commerce/storefront_revision.go:92-103 | rewriting a category row does not change its descendant set, so the selector may run before or after the write |
| `Categories.CategoryWriteCovered` | modules/commerce/storefront_revision.go:90-103 | for any category graph every store whose public tree changes after a write to a category is in that category's selector |
| `Cache.CachedPayloadIsCurrent` | internal/coreapi/storefront.go:76-93 | a payload labelled r whose fill finished before a probe that returns r is the store's public output at the probe, although several statements produced it |
| `Cache.OverlappingFillIsNotOlder` | internal/coreapi/storefront.go:76-93 | a fill that overlaps the probe is never older than the probe |
| `Cache.StockWritersAreHonest` | modules/commerce/storefront_revision.go:105-124 | creating, adjusting or reserving stock moves the generation whenever it moves any public answer |
| `Cache.StockWriteHonest` | modules/commerce/storefront_revision.go:39-52 | unselected stores keep both output and generation |
| `Cache.CategoryWritersAreHonest` | modules/commerce/platform_repository.go:877-895 | the same for both category updates in any category graph |
| `Cache.LocationWriterIsHonest` | modules/commerce/platform_repository.go:909-911 | the same for location status |
| `Cache.WrittenIsHonest` | modules/commerce/storefront_revision.go:105-124 | every history of these writers is one the cache theorems apply to, for every store and every reader |
| `Cache.Backend.RevisionFor` | modules/storefront/revision.go:65-74 | the probe: no generation read earlier exceeds the one returned, and every state labelled with it answers every query as the current one does |
| `Cache.Backend.StorefrontRead` | internal/coreapi/storefront.go:76-93 | the label is the generation read before the first statement, each answer is the output of its own moment, and a failed read discloses no label |
| `Availability.AnswersExact` | modules/storefront/catalog_repository.go:54-221 | what a public read answers, by the availability and tree results above: a SKU or product is in stock exactly when checkout could allocate a unit of it, and the tree is that of the published products |
| `Traffic.TreesIgnoreTraffic` | modules/storefront/catalog_repository.go:193-221 | checkout and order traffic, which bumps nothing, never moves a public category tree |
| `Traffic.MixedIsHonest` | modules/storefront/catalog_repository.go:193-221 | any history of traffic and of stock, category and location writers mixed is one the cache theorems apply to, for readers of trees |
| `Traffic.CachedTreesAreCurrent` | internal/coreapi/storefront.go:76-93 | so under real traffic a cached payload of trees whose label the probe confirms is what the store shows at the probe |
| `Themes.StepLater` | modules/themes/repository.go:427-502 | installation and draft revision determine the draft for all history: no step rewrites one |
| `Themes.StepKeepsInv` | modules/themes/repository.go:316-502 | every repository step, by any client, keeps drafts recorded, validations honest, published content accounted for and one active installation per store |
| `Themes.PublishedWasValidated` | modules/themes/service.go:183-212 | under any interleaving of edit, discard, publish, upgrade and install, every published configuration is a seeded default or exactly a draft that passed validation |
| `Themes.PublishIsExact` | modules/themes/repository.go:451-488 | a publish commits exactly the document its caller validated and commits if and only if no draft write came between |
| `Themes.PreviewIsExact` | modules/themes/service.go:332-349 | over any run, the draft read at an unchanged revision is the draft that was there when the revision was first read |
| `ThemeStores.LookupExact` | modules/themes/repository.go:267-279 | the lookup finds an active installation of that very store, errs exactly when there is none, and in every reachable state finds the only one |
| `ThemeStores.StepsStayApart` | modules/themes/repository.go:294-502 | a step about one store leaves installations, configurations and generation of every other store as they were |
| `ThemeStores.InstallExact` | modules/themes/repository.go:316-374 | installing makes the new installation the store's only active one, with draft and publication the version's defaults at revision zero |
| `ThemeStores.ConfigurationWrites` | modules/themes/repository.go:427-502 | what an edit, a discard and a publish leave in the configuration, field by field |
| `ThemeStores.VersionWrites` | modules/themes/repository.go:294-314 | a version of the installation's own theme takes the place of its version, any other leaves everything as it was |
| `ThemeStores.ShownMovesGeneration` | modules/themes/repository.go:294-502 | whatever changes the installation, version or published content a store shows moves its generation in the same commit |
| `ThemeClients.Service.PublishConfiguration` | modules/themes/service.go:183-212 | read, validate and publish with other clients in between: success means draft and published of the store's own installation are the validated document at the validated revision, which fits the installed version when that is still the one validated against; its commit leaves every other store alone |
| `ThemeClients.Service.UpdateDraftConfiguration` | modules/themes/service.go:159-178 | success means the draft of the store's own installation is the given safe document under a new revision; its commit leaves every other store alone |
| `ThemeClients.Service.DiscardDraft` | modules/themes/service.go:216-225 | success means the draft of the store's own installation is what is published, under a new revision; its commit leaves every other store alone |
| `ThemeClients.Service.UpgradeInstallation` | modules/themes/service.go:230-263 | success means the store's own installation is on the target version, for which a draft it held was valid; what is published fits it when it is that draft; its commit leaves every other store alone |
| `ThemeClients.Service.CreatePreviewToken` | modules/themes/service.go:267-279 | the token names the store's own active installation and the draft it held when its configuration was read |
| `ThemeClients.Service.ResolveStorefrontPreview` | modules/themes/service.go:287-368 | four reads with other clients in between: what is shown is exactly the draft recorded for the token, valid and safe for the version read, on the token's own store and before it expires |
| `ThemeUpgrades.WhatBreaksFit` | modules/themes/service.go:183-263 | published content that fits the installed version stops fitting by exactly two kinds of step: a publish validated against another version that the installed one refuses, and an upgrade to a version that refuses what is published |
| `ThemeUpgrades.UpgradeFitsExactly` | modules/themes/service.go:230-263 | whatever others do between the validation of a draft and the write, the upgrade leaves fitting published content for every target version that accepts the draft if and only if the document published at the write is that draft |
| `ThemeUpgrades.UpgradeOfPublishedDraftFits` | modules/themes/service.go:230-263 | for any target, named by others or not, the upgrade leaves fitting content exactly when the target accepts what is published at the write, as it does when that is the validated draft |
| `ThemeUpgrades.GuardedUpgradeExact` | modules/themes/service.go:230-263 | with the published revision unchanged at the write the exact condition is one checked at the read: the draft validated is the document published |
| `ThemeUpgrades.GuardedRunFits` | modules/themes/service.go:183-263 | with a publisher that rechecks the installed version at its commit and an upgrader that rechecks the published document at its write, published content fits in every state of every run |
| `ThemeUpgrades.RaceBreaksFit` | modules/themes/service.go:230-263 | a race: draft and published content agree at the read and at the write, an honest publish of another document lies between, and the upgrade leaves content that fails the version installed |
| `ThemeUpgrades.LatePublishBreaksFit` | modules/themes/service.go:183-263 | a publish validated before an upgrade and committed after it leaves content that fails the version installed |
| `ThemeUpgrades.DraftingReaches` | modules/themes/service.go:110-178 | a run from the empty tables that publishes one document under a first version and drafts another |
| `ThemeUpgrades.UpgradeChecksTheDraftOnly` | modules/themes/service.go:230-263 | from there an upgrade whose draft passes, with nothing in between, leaves published content that fails the version now installed |
| `ThemeUpgrades.PublishingPutsAtRisk` | modules/themes/service.go:183-212 | and publishing the draft first leads to a state open to the race and the late publish |
| `Domains.RunKeepsInv` | modules/commerce/domain_repository.go:110-356 | over every run: at most one primary per store, primary implies active, verified or active custom implies verified_at set, an active platform domain implies a primary |
| `Domains.ActivateExact` | modules/commerce/domain_repository.go:110-164 | activation succeeds exactly for a verified custom domain of the store; it becomes active and the store's one primary, the store's others lose only that flag and other stores nothing |
| `Domains.ActivateRefusals` | modules/commerce/domain_repository.go:110-164 | not the store's domain is not found, a platform domain invalid, an unverified one a conflict |
| `Domains.CreateExact` | modules/commerce/repository.go:297-360 | a platform domain starts active, verified and primary, a custom one pending with its token; both exactly for a free name and identifier |
| `Domains.MarkExact` | modules/commerce/domain_repository.go:53-105 | a verification result reaches exactly a custom domain pending or failed, and what it writes |
| `Domains.DisableExact` | modules/commerce/domain_repository.go:217-284 | disabling takes status and primary flag; only if the flag was there does an oldest active platform domain of the store get it, and nothing else changes |
| `Domains.EnableExact` | modules/commerce/domain_repository.go:290-356 | reinstatement exactly of a disabled domain: a custom one to verified or pending, never primary, a platform one to active and primary only when the store has none |
| `Domains.DisabledUntilEnabled` | modules/commerce/domain_repository.go:53-105 | over every run without its enable, verification in flight included, a disabled domain stays disabled |
| `Domains.FallbackExact` | modules/commerce/domain_repository.go:260-278 | the fallback finds a domain if and only if an active platform domain exists, and finds an oldest one |
| `Domains.ReinstatementUndoesModeration` | modules/commerce/domain_repository.go:217-356 | enabling the store's only active platform domain after disabling it restores every row |
| `DomainOperations.Repository.ActivateCustomDomainTx` | modules/commerce/domain_repository.go:110-164 | demote then promote equals the activation step |
| `DomainOperations.Repository.DisableDomainTx` | modules/commerce/domain_repository.go:217-284 | disable with fallback equals the moderation step |
| `DomainOperations.Repository.EnableDomainTx` | modules/commerce/domain_repository.go:290-356 | enable equals the reinstatement step |
| `DomainOperations.Repository.MarkDomainVerifiedIfVerifiable` | modules/commerce/domain_repository.go:53-78 | marks only a pending or failed custom domain |
| `DomainOperations.Repository.MarkDomainVerificationFailedIfVerifiable` | modules/commerce/domain_repository.go:82-105 | fails only a pending or failed custom domain |
| `DomainOperations.Repository.VerifyCustomStoreDomainForSubject` | modules/commerce/domain_service.go:41-117 | read, lookup and conditional write with other transactions in between: no lookup for active, verified or disabled domains, the mark depends on the exact record, and a domain disabled meanwhile stays disabled |

## Left out

- The SQL engine, isolation anomalies between statements of one transaction, foreign-key and unique-index waits, and revision-row locks: each `withTx` body is one step, and explicit row locks appear in the deadlock theorems only.
- Optimistic `version` predicates on snapshots and the count of reservations rewritten, on rows the transaction has locked: they cannot fail under the lock, so the model has no branch for them. The guarded update of the order row is modelled (`Repository.Repository.MoveOrder`).
- Transactions opened by the caller and passed in, and standalone `CreateOrder`, `AppendTimeline`, `AllocateOrderNumber` and `CreateStoreDomain`: they bypass the protocols.
- Bearer tokens and their digests, seller and customer authorization, HTTP handlers other than the storefront read, logging, OpenAPI, markets administration, search payloads and message transport.
- The reason, principal and correlation columns of movement, timeline and event rows, beyond the authority a timeline row names and the reason an order keeps.
- SHA-256, JSON and HMAC are taken as injective and unforgeable: a fingerprint is its canonical input and a preview token its claims.
- Descriptions, images and translated names other than category names: no invalidation rule treats them differently.
- Order notes, order addresses after creation, the supplier's contact data and the carts' expiry column, which no modelled operation reads.
- Outbox.Table.ClaimBatch: returns the ids in selection order, while the statement leaves the order of returned rows open.
- The polling loop around `ProcessBatch`: each round is one batch of the fleet (`Workers.FleetIsSafe`), and that a claim identifier is drawn afresh and never used again is a hypothesis there.
- The insertion of outbox rows is part of the order transactions (their events) and reaches the lease protocol as new rows that may appear at any time.
- Background jobs that would abandon carts or mark sessions expired: the statuses are modelled, but no code of the repository sets them.
- Cache.StockWritersAreHonest: quantifies over the writers that bump; `HoldReservation`, confirm, cancel and expire change stock without bumping, so availability answers may lag behind them. Category trees do not (`Traffic.TreesIgnoreTraffic`).
- Writers of products, listings, prices, translations and offers bump through selectors that compare one column; only the joins over stock, locations and category subtrees are modelled.
- Domains.FallbackExact: platform domains created at the same instant are taken by id, while the query leaves their order open.
- Domain name normalisation, pagination and listing queries.
- Theme catalogue administration, assets, and the standalone repository calls that create or deactivate an installation outside `InstallAtomically`.
