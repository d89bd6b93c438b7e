# Marketplace backend: the order saga and its neighbours, in Dafny

The backend places orders by a saga: reserve stock, charge the customer, mark the order paid, and undo what was done
when a step fails. The steps are short database transactions in separate contexts, joined by messages that may be lost,
repeated, delayed or reordered. Around it stand the outboxes that start and announce orders, the registration chain,
refresh-token families with an access-token denylist, a sliding-window limiter, a cache with a stampede lock, order
pricing in doubles, and the order event streams. This project models each of these and proves what it promises.

Every module has the same shape. Pure functions say what one transaction, script or call does to the tables. A class
with the source's statements, branches and loops is proved to do exactly that. Steps of many callers are then
interleaved in a transition system (`Event`, `Enabled`, `Apply`, `Run`), an invariant is proved for every step, and the
theorems speak about every run.

| file | what it holds |
|---|---|
| `Account.dfy` | charge, refund, fence, balance and ledger |
| `Stock.dfy`, `ReserveLocks.dfy` | reservations, their sums, and the row locks of concurrent reserves and releases |
| `Orders.dfy` | the pending-only status change and its outbox row |
| `Saga.dfy`, `SagaProofs.dfy` | the workflow with all contexts, and its invariant |
| `SagaTheorems.dfy`, `SagaPunctual.dfy`, `SagaEndings.dfy` | the theorems, the runs on which a wish fails, and which workflows can still end |
| `OutboxRelay.dfy` | the event outbox with one relay |
| `RelayFleet.dfy`, `FleetOrder.dfy`, `FleetRuns.dfy` | several relays and late arrivals: no loss, exactly when the order is kept, and the runs on which it is not |
| `Placement.dfy`, `Provisioning.dfy` | idempotent placement with the workflow outbox, registration to user to account and buyer |
| `Sessions.dfy`, `SessionProofs.dfy` | refresh-token rotation, reuse, logout, denylist |
| `RateLimit.dfy` | the Lua sliding window and Retry-After |
| `Cache.dfy` | cache-aside against the row it caches |
| `Pricing.dfy`, `ChargeAmounts.dfy` | totals in doubles against exact cents, amount texts, and what the account makes of them |
| `OrderEvents.dfy` | event history and resumable streams |
| `Wrappers.dfy`, `Limits.dfy` | the `Option` type; bounds several contexts share |

## How the outside is modelled

- **Messages.** A sent message stays in the set `sent` and may be delivered any number of times at any later step, or
  never. A reply may reach the workflow whenever it waits for that activity. This covers loss, duplication, delay,
  reordering and late attempts of timed-out activities. `wellFormed` in a message stands for the envelope checks
  (version, type, UUIDs).
- **Temporal** is a persistent program counter; an activity once scheduled may act late, for ever.
- **Transactions** are atomic steps, or statements that read committed rows and publish their writes at commit. Advisory
  locks are taken through an arbitrary function from key to lock id, so ids may collide.
- **Redis** keys with an expiry exist up to and including the expiry instant. **Kafka** is an append-only log; each send
  arrives at most once, since the producer is idempotent, and a failed one may have arrived all the same, at once in
  `OutboxRelay`, at any later moment in `RelayFleet`. A topic is one log with one offset per consumer: the three
  partitions of a topic are not told apart, and the events of one aggregate share a key and so a partition.
- **Environment steps** not in the repository: top-ups (`TopUp`, keeping balance and ledger together), restocking and
  delisting of offers.
- **Notes** record what happened and are read by no step: the `cause` of a ledger entry (the table has no such column),
  `notes` of the saga, versions and times in the cache, `accepted` and `joins` of the streams.
- **Generated values** (ids, lock tokens, refresh-token hashes) are arguments, fresh wherever the source draws them at random
  or from an identity column; clocks are arguments or `now` in the state.
- An empty idempotency key counts as none, as in the source; the model writes it `None`.

## What is not as one might wish

The code is modelled as it is. Each of these is shown by a concrete run and delimited by an exact condition.

- **A denied token can pass a slow verification.** `verify` looks at the clock for `exp` and only then asks Redis for the
  denylist. The entry ends as little as a millisecond after the token does, so a verification that straddles both ends
  passes (`DeniedTokenCanPass`). It can be timed to pass exactly when it takes at least two milliseconds longer than the
  token had been out when its family was denied (`SlowVerificationCanPass`, `DeniedTokenPassesOnlyIfSlow`).
- **A failed order can keep stock or money.** A release leaves no fence, so a reserve delivered after it takes stock
  (`LateReserveKeepsStock`); an offer delisted between two reserve attempts turns a held reservation into a refusal, which
  is not followed by a release (`DelistingKeepsStock`); a refused charge leaves no inbox row, so its redelivery after a
  top-up is applied and never refunded (`LateChargeKeepsMoney`). `FailedMeansUndone` says when exactly, in both
  directions, by what the deliveries met; `PunctualFailureIsUndone` says that nothing is kept when none of them is late.
- **`markPaid` is outside the non-cancellable scope**: an order cancelled there stays charged and reserved
  (`CancelledRunStaysPending`), and pending exactly when no attempt of markPaid executed (`CancelledWhileMarkingPaidKeepsAll`).
- **A charged workflow can hang.** The account context drops a movement it does not accept, such as a zero total, without
  an answer (`WorthlessOrderHangs`), and a refund that would overflow the balance column is retried without end
  (`OverflowingRefundHangs`). `SettlesExactlyWhen` says that these are the only two ways.
- **A cache entry can stay behind the row** with no writer left to delete it (`MissedDeleteLeavesStaleEntry`), exactly when
  its load read before a commit and stored after that commit's delete (`BehindExactlyWhenOvertaken`).
- **A header beyond the newest event silences a stream** until ids pass it (`HeaderBeyondSilences`); every later event is
  sent exactly when the header does not cover the first of them (`EveryLaterEventIsSentIff`).
- **Several relays, or a copy of a timed-out send that arrives late, break the order of an aggregate**
  (`SeveralRelaysReorder`, `LateCopyReorders`); nothing is lost even so. A run is in order throughout exactly when no copy
  arrives behind a published later event and no relay publishes a row before what precedes it (`OrderedThroughoutIff`).
  Claiming no event while an earlier one waits under another's lock, and no copy arriving out of turn, is enough
  (`InTurnIsOrdered`); one relay that begins with nothing on the wire always does both (`OneRelayKeepsOrder`).
- **A release can deadlock with a reserve**: it does not sort its offers (`UnorderedReleaseDeadlocks`). Every circle of
  waiting has such a release in it (`CycleNeedsUnorderedRelease`).
- **A refusal may report enough stock**: the offers are read before the rows are locked (`ReportedStockCanSuffice`), exactly
  for an item that could be held at the read and was lost before the loop (`ReportsEnoughIff`).
- The money transformer's comment says that amounts stay strings and are never turned into doubles
  (`src/generic/transformer/money.transformer.ts`), but placement, charge and refund do convert them. The model follows
  the code; `ChargedIsExact` shows that no cent is lost up to 4000 lines.

## Model

| member | source | states |
|---|---|---|
| `Account.AccountStore.MarkProcessed` | src/account/repository/account-inbox.repository.ts:10-22 | the row is there afterwards; the answer says whether it was new |
| `Account.AccountStore.Debit` | src/account/repository/account.repository.ts:11-22 | the balance falls by the amount exactly when the account exists and covers it |
| `Account.AccountStore.Credit` | src/account/repository/account.repository.ts:24-31 | upsert of the balance, refused where numeric(12,2) would overflow |
| `Account.AccountStore.CreateIfAbsent` | src/account/repository/account.repository.ts:33-44 | a missing account appears with zero, an existing one is untouched |
| `Account.AccountStore.HandleCustomerCharge` | src/account/gateway/account.gateway.ts:41-58 | inbox row, debit and ledger entry together, or nothing but the reply; rejected charges roll the inbox row back |
| `Account.AccountStore.HandleCustomerRefund` | src/account/gateway/account.gateway.ts:76-88 | fence the uncharged order, or credit it once; a repeat changes nothing and still answers `refunded` |
| `Account.ChargeAnswers` | src/account/gateway/account.gateway.ts:41-58 | each answer with its cause, to the letter: dropped iff malformed or out of the gateway's bounds, not found, insufficient with the balance, success iff new and covered or a repeat; the balance falls by the amount |
| `Account.RefundAnswers` | src/account/gateway/account.gateway.ts:76-88 | dropped, not charged with its fence, thrown on overflow, or refunded by exactly the amount |
| `Account.ProvisionMeaning` | src/account/repository/account.repository.ts:33-44 | the customer has an account afterwards, and no balance changed |
| `Account.BalancedStep` | src/account/command-handler/account-customer-charge.command-handler.ts:13-31 | every operation keeps balance equal to the signed ledger sum and non-negative |
| `Account.BalancedForever` | src/account/repository/account.repository.ts:11-54 | the same after any sequence of charges, rejections, refunds, fences, provisioning and redeliveries |
| `Account.CoherentCharge` | src/account/service/account-inbox.service.ts:10-22 | a charge keeps the relation between an order's inbox rows and its ledger entries |
| `Account.CoherentRefund` | src/account/command-handler/account-customer-refund.command-handler.ts:17-32 | so does a refund that repeats the charge's id, whether it fences or credits |
| `Account.CoherentForever` | src/account/gateway/account.gateway.ts:41-88 | refunds ≤ payments ≤ 1 for every order, whatever is lost, duplicated or reordered |
| `Account.RefundedNetsToZero` | src/account/command-handler/account-customer-refund.command-handler.ts:17-32 | an order with a processed refund has net ledger effect zero |
| `Account.RefundSettlesForever` | src/account/command-handler/account-customer-refund.command-handler.ts:17-32 | after an answered refund the net effect stays zero under every later delivery, charges in flight included |
| `Account.SeparateRefundIdsPayTwice` | src/order/service/order-place-message.service.ts:87-103 | the shared id is needed: with two refund ids one charge is refunded twice |
| `Stock.SortItems` | src/seller-offer/repository/stock-reservation.repository.ts:19 | the result is the same multiset in ascending offer order |
| `Stock.StockStore.ReserveRows` | src/seller-offer/repository/stock-reservation.repository.ts:16-44 | the loop's rows, holds and outcomes are those of reserving item by item in that order |
| `Stock.StockStore.HandleStockReserve` | src/seller-offer/command-handler/seller-offer-stock-reserve.command-handler.ts:15-47 | from the offers as read and the tables as locked: all items held, or the tables as before with the missing or failed items and what was read as available |
| `Stock.StockStore.HandleStockRelease` | src/seller-offer/repository/stock-reservation.repository.ts:46-64 | the release that the saga's deliveries apply; the order holds nothing afterwards, and the answer counts the offers touched |
| `Stock.RepositoryKeepsSumsIff` | src/seller-offer/repository/stock-reservation.repository.ts:16-44 | the repository loop alone keeps reserved = sum of active rows if and only if no item failed |
| `Stock.ReserveKeepsValid` | src/seller-offer/command-handler/seller-offer-stock-reserve.command-handler.ts:15-47 | with the handler's rollback sums, range and keys are always kept |
| `Stock.ReleaseTakesOneRow` | src/seller-offer/repository/stock-reservation.repository.ts:48-59 | the join takes from each offer exactly what its rows lose |
| `Stock.ReleaseKeepsValid` | src/seller-offer/command-handler/seller-offer-stock-release.command-handler.ts:10-13 | a release, repeated or not, keeps sums and range |
| `Stock.ValidForever` | src/seller-offer/repository/stock-reservation.repository.ts:16-64 | in every run reserved = sum of active reservations and 0 ≤ reserved ≤ on hand |
| `Stock.ReserveMeaning` | src/seller-offer/command-handler/seller-offer-stock-reserve.command-handler.ts:15-47 | held: every item has a row, old rows untouched, new rows are the items'; rejected: nothing changed |
| `Stock.FailsExactlyWhenShort` | src/seller-offer/repository/stock-reservation.repository.ts:19-41 | an item fails iff it is the first of its offer, has no row yet, and the tables before the transaction cannot hold it |
| `Stock.HeldExactlyWhenAvailable` | src/seller-offer/command-handler/seller-offer-stock-reserve.command-handler.ts:15-47 | with distinct offers a reserve is held iff every item was listed at the read and is already reserved for the order or available at the loop |
| `Stock.RefusalNamesTheMissing` | src/seller-offer/command-handler/seller-offer-stock-reserve.command-handler.ts:16-26 | of the reply: dropped iff the items are none or out of range; offer_not_found iff some item was absent or delisted at the read, listing exactly those with zero available |
| `Stock.RefusalNamesTheShort` | src/seller-offer/command-handler/seller-offer-stock-reserve.command-handler.ts:31-46 | an insufficient_stock refusal lists exactly the items that lacked stock at the loop, with the figure of the read: enough iff the offer could hold the item then, never if nothing came in between |
| `Stock.ReportsEnoughIff` | src/seller-offer/command-handler/seller-offer-stock-reserve.command-handler.ts:31-46 | some listed item is reported as sufficient iff an item could be held at the read and was lost before the loop |
| `Stock.ReportedStockCanSuffice` | src/seller-offer/command-handler/seller-offer-stock-reserve.command-handler.ts:17-46 | a run: read, another order's reserve, then a refusal that reports five of two |
| `Stock.RedeliveredReserve` | src/seller-offer/repository/stock-reservation.repository.ts:22-24 | a repeated reserve holds nothing more and is refused only after a delisting |
| `Stock.ReleaseMeaning` | src/seller-offer/repository/stock-reservation.repository.ts:46-64 | the order holds nothing afterwards, every other order what it held |
| `ReserveLocks.PlanAscends` | src/seller-offer/repository/stock-reservation.repository.ts:19-38 | sorted items make a transaction ask for keys and offer rows in one global order |
| `ReserveLocks.ExclusiveForever` | src/seller-offer/repository/stock-reservation.repository.ts:19-38 | no row is held by two transactions |
| `ReserveLocks.CycleNeedsUnorderedRelease` | src/seller-offer/repository/stock-reservation.repository.ts:19-64 | in any run of reserves and releases, a circle of waiting contains a release that holds a later row than it wants; reserves alone never wait in a circle |
| `ReserveLocks.NoWaitsForCycle` | src/seller-offer/repository/stock-reservation.repository.ts:19-64 | no circle at all while every release visits its offers in ascending order |
| `ReserveLocks.UnorderedReleaseDeadlocks` | src/seller-offer/repository/stock-reservation.repository.ts:46-64 | a reachable circle of one reserve and one release of the same two offers |
| `ReserveLocks.SomeoneCanGoOn` | src/seller-offer/repository/stock-reservation.repository.ts:19-64 | under the same condition, while one transaction still wants a row, some transaction can lock or end |
| `Orders.OrderStore.UpdatePendingStatusById` | src/order/repository/order.repository.ts:30-41 | compare-and-set from pending_payment, and the answer whether it happened |
| `Orders.OrderStore.MarkPaidActivity` | src/order/activity/order-place.activity.ts:79-87 | status and order.paid row together, or nothing |
| `Orders.OrderStore.MarkFailedActivity` | src/order/activity/order-place.activity.ts:89-97 | status and order.failed row together, or nothing |
| `Orders.OperationsMean` | src/order/activity/order-place.activity.ts:79-97 | the new status and the appended event of each operation, and nothing when the order is not pending |
| `Orders.ConsistentForever` | src/order/activity/order-place.activity.ts:79-97 | one terminal event exactly when the order has left pending_payment, agreeing with its status |
| `Orders.LeavesPendingOnce` | src/order/repository/order.repository.ts:30-41 | afterwards neither the status nor the number of terminal events changes |
| `Saga.RejectionsAreRecognised` | src/order/workflow/order-place.workflow.ts:70-78 | the failure type an activity throws is the one the workflow reads back |
| `Saga.OnlyRejectionsAreRecognised` | src/order/workflow/order-place.workflow.ts:70-78 | an error is one of the two failure types iff it is an activity failure caused by an application failure of that name |
| `SagaProofs.SuccessKeepsWf` | src/order/workflow/order-place.workflow.ts:38-67 | advancing after an answered activity keeps what the position says about replies and scheduled activities |
| `SagaProofs.ErrorKeepsWf` | src/order/workflow/order-place.workflow.ts:42-63 | so does every error, rejection or cancellation, through all compensation branches |
| `SagaProofs.ReserveMeets` | src/seller-offer/repository/stock-reservation.repository.ts:19-41 | a reserve is held afresh iff it meets free stock, and refused on top of the order's rows iff it meets a delisting |
| `SagaProofs.DeliverReserveKeepsInv` | src/seller-offer/gateway/seller-offer.gateway.ts:37-53 | any delivery of a reserve keeps the invariant of the whole system |
| `SagaProofs.DeliverReleaseKeepsInv` | src/seller-offer/gateway/seller-offer.gateway.ts:71-80 | any delivery of a release does |
| `SagaProofs.DeliverChargeKeepsInv` | src/account/gateway/account.gateway.ts:41-58 | any delivery of a charge does |
| `SagaProofs.DeliverRefundKeepsInv` | src/account/gateway/account.gateway.ts:76-88 | any delivery of a refund does; a fence exists only after a refund was sent |
| `SagaProofs.MarkKeepsInv` | src/order/activity/order-place.activity.ts:79-97 | any attempt of markPaid or markFailed does, late ones included |
| `SagaProofs.InvForever` | src/order/workflow/order-place.workflow.ts:30-68 | the invariant holds in every reachable state, for any number of orders |
| `SagaTheorems.LedgerOfAnOrder` | src/account/service/account-inbox.service.ts:10-22 | in every run of the saga an order has refunds ≤ payments ≤ 1, all of its own total and customer |
| `SagaTheorems.Conservation` | src/order/workflow/order-place.workflow.ts:30-68 | balances equal ledgers and reserved quantities equal reservations throughout |
| `SagaTheorems.RefundStepSettles` | src/order/workflow/order-place.workflow.ts:46-49 | past the refund step the order's net effect is zero in every later state |
| `SagaTheorems.PaidMeansPaidAndReserved` | src/order/workflow/order-place.workflow.ts:38-67 | a paid order has one payment of its total, no refund, and every item actively reserved in the requested quantity |
| `SagaTheorems.CancelledWhileMarkingPaidKeepsAll` | src/order/workflow/order-place.workflow.ts:65-67 | cancelled during markPaid: charged and reserved; pending iff no attempt of markPaid executed, else paid |
| `SagaTheorems.CancelledRunStaysPending` | src/order/workflow/order-place.workflow.ts:65-67 | a reachable one: cancelled, pending, charged, reserved |
| `SagaTheorems.FailedMeansUndone` | src/order/workflow/order-place.workflow.ts:38-63 | ended unpaid: failed_payment after a refused charge, canceled otherwise; net charge zero iff no charge met a covered account after a refusal; no stock iff no reserve met free stock too late or a delisting on top of its rows |
| `SagaTheorems.FailureIsAnnounced` | src/order/workflow/order-place.workflow.ts:80-90 | ended unpaid, to the letter: canceled / insufficient_stock, failed_payment / payment_rejected, or canceled / error, in the row and in the order.failed event |
| `SagaTheorems.FailureHasItsRefusal` | src/order/workflow/order-place.workflow.ts:42-44 | a failing workflow of either type has seen that refusal |
| `SagaPunctual.PunctualFailureIsUndone` | src/order/workflow/order-place.workflow.ts:42-63 | if no reserve ran after the reserve step or a refusal, no charge after a refusal, and no offer was delisted between two reserves: failed, no stock, net zero |
| `SagaTheorems.StatusAndEventsAgree` | src/order/activity/order-place.activity.ts:79-97 | status and terminal event agree in every state of the saga |
| `SagaEndings.InvalidMovementNeverSettles` | src/account/gateway/account.gateway.ts:90-96 | once charged, an order whose movement the gateway drops stays in charge or refund, pending, in every run |
| `SagaEndings.LeavesOnlyAfterBalanceFell` | src/account/repository/account.repository.ts:24-31 | a refund that would overflow is left, in every continuation, only after the customer's balance has fallen; never if no other order charges them |
| `SagaEndings.AnotherChargeFreesTheRefund` | src/account/command-handler/account-customer-refund.command-handler.ts:17-32 | a large enough charge for another order does free it |
| `SagaEndings.SettlesExactlyWhen` | src/order/workflow/order-place.workflow.ts:38-67 | in every reachable state with the charge sent, some continuation without charges for the customer's other orders ends the workflow iff the movement is valid and no overflowing refund is awaited |
| `SagaEndings.OrderCanBePaid` | src/order/workflow/order-place.workflow.ts:38-67 | from every reachable state waiting for stock or charge, with the stock free and the account covering, a continuation ends paid |
| `SagaEndings.WorthlessOrderHangs` | src/account/gateway/account.gateway.ts:90-96 | a reachable zero-total order that no continuation ends |
| `SagaEndings.OverflowingRefundHangs` | src/account/repository/account.repository.ts:24-31 | a reachable positive order, charged, that stays in its refund step for ever |
| `SagaTheorems.LateReserveKeepsStock` | src/seller-offer/repository/stock-reservation.repository.ts:46-64 | a reachable failed order that holds stock: reserve delivered after release |
| `SagaTheorems.DelistingKeepsStock` | src/order/workflow/order-place.workflow.ts:51-53 | a reachable one: refusal after a held reserve, no release |
| `SagaTheorems.LateChargeKeepsMoney` | src/order/workflow/order-place.workflow.ts:47-49 | a reachable failed order that is charged: refused charge redelivered after a top-up |
| `OutboxRelay.OutboxStore.RelayBatch` | src/order/service/order-outbox-relay.service.ts:62-82 | sends the claimed rows in order up to the first failure; marks are kept only on commit, sends always |
| `OutboxRelay.OutboxStore.RelayOnce` | src/order/service/order-outbox-relay.service.ts:41-55 | does nothing while a relay is under way and always lowers the flag |
| `OutboxRelay.CommittedBatchPublishes` | src/order/service/order-outbox-relay.service.ts:79-81 | after a committed batch a row is published iff it was, or it was claimed and acknowledged with all before it; stamped with the batch's time |
| `OutboxRelay.CommittedBatchCounts` | src/order/service/order-outbox-relay.service.ts:71-76 | the row whose send failed, and no other, has one attempt more |
| `OutboxRelay.FullBatchAdvances` | src/order/service/order-outbox-relay.service.ts:62-82 | a fully acknowledged batch takes the oldest hundred off the waiting list |
| `OutboxRelay.Drains` | src/order/service/order-outbox-relay.service.ts:62-82 | k such batches leave all but 100·k rows published; enough of them leave none waiting |
| `OutboxRelay.CleanupMeaning` | src/order/repository/order-outbox.repository.ts:36-39 | deletes exactly the rows published before the given moment |
| `OutboxRelay.ClaimIsPrefix` | src/order/repository/order-outbox.repository.ts:15-26 | a waiting row that is older than a claimed one is claimed before it |
| `OutboxRelay.CommittedPair` | src/order/service/order-outbox-relay.service.ts:62-82 | after a committed batch an earlier event of an aggregate is published, and last in the log before the later one |
| `OutboxRelay.CleanupKeepsInv` | src/order/repository/order-outbox.repository.ts:36-39 | cleanup removes only rows that were sent |
| `OutboxRelay.NothingLostAndInOrder` | src/order/service/order-outbox-relay.service.ts:41-82 | over all runs with failed sends, lost answers, crashes and cleanups: nothing lost, order kept per aggregate |
| `OutboxRelay.EventIsWaitingOrSent` | src/order/service/order-outbox-relay.service.ts:62-82 | each committed event is unpublished in the table or in the log |
| `OutboxRelay.LaterEventIsLastInLog` | src/order/service/order-outbox-relay.service.ts:62-82 | a published event's predecessors are published, with an earlier last position |
| `RelayFleet.BeginKeepsDisjoint` | src/order/repository/order-outbox.repository.ts:15-26 | a claim that skips locked rows shares none with another relay |
| `RelayFleet.SeveralRelaysLoseNothing` | src/order/service/order-outbox-relay.service.ts:62-82 | with any number of relays and arbitrarily late arrivals: claims disjoint, every committed event waiting or in the log |
| `FleetOrder.ArriveKeepsOrderIff` | src/order/service/order-outbox-relay.service.ts:67-77 | an arriving copy keeps the order iff no later event of its aggregate is published |
| `FleetOrder.FinishKeepsOrderIff` | src/order/service/order-outbox-relay.service.ts:79-81 | a committing batch keeps the order iff whatever precedes a row it marks is marked, by it or before, and earlier in the log |
| `FleetOrder.OrderedThroughoutIff` | src/order/service/order-outbox-relay.service.ts:62-82 | a run of any number of relays is in order throughout iff every arrival and every commit meets its condition |
| `FleetOrder.InTurnIsOrdered` | src/order/repository/order-outbox.repository.ts:15-26 | in order, as long as no claim takes an event while an earlier one of its aggregate waits under another's lock, and no copy arrives after a later event is published or has arrived |
| `FleetOrder.OneRelayKeepsOrder` | src/order/service/order-outbox-relay.service.ts:41-82 | one relay whose batches begin with nothing on the wire is always in turn, so in order, whatever fails or crashes |
| `FleetRuns.SeveralRelaysReorder` | src/order/repository/order-outbox.repository.ts:23-24 | a reachable state with a later event of an aggregate published and the earlier one not even sent |
| `FleetRuns.LateCopyReorders` | src/order/service/order-outbox-relay.service.ts:67-77 | a reachable state of a single relay: the first event's send times out, both events are published, then that send arrives |
| `FleetRuns.UnacknowledgedIsNotEnough` | src/order/service/order-outbox-relay.service.ts:67-81 | why a later event that has only arrived counts: a copy comes in before it is acknowledged, and the batch commits the two out of order |
| `Placement.OrderTables.CreatePending` | src/order/command-handler/order-place.command-handler.ts:55-92 | the keyed order if there is one, else a new order with both outbox rows; an unknown offer leaves nothing |
| `Placement.OrderTables.ClaimUnstarted` | src/order/repository/order-workflow-outbox.repository.ts:15-26 | the oldest hundred unstarted rows that nobody has locked, oldest first |
| `Placement.ClaimIsFull` | src/order/service/order-workflow-outbox-relay.service.ts:16 | a claim has at most a hundred rows, and fewer only if it has all there are |
| `Placement.OrderTables.RelayWorkflows` | src/order/service/order-workflow-outbox-relay.service.ts:63-101 | claims, starts in order up to the first failure (an already-started id counts as started); marks and the counted failure only on commit |
| `Placement.CommittedBatchStarts` | src/order/service/order-workflow-outbox-relay.service.ts:80-82 | after a committed batch exactly the answered rows have moved from unstarted to started, and each has begun |
| `Placement.BatchCounts` | src/order/service/order-workflow-outbox-relay.service.ts:72-77 | the refused row, and no other, has one attempt more; an aborted batch marks nothing |
| `Placement.OneOrderPerKey` | src/order/repository/order.repository.ts:16-22 | interleaved statement by statement, a (user, key) has at most one order, by the lock alone |
| `Placement.RetriesGetTheSameOrder` | src/order/command-handler/order-place.command-handler.ts:56-63 | every answered keyed request names that order |
| `Placement.OneEventOneWorkflow` | src/order/service/order-workflow-outbox-relay.service.ts:63-101 | one order.created row, one workflow row, at most one workflow run, and until then the row waits |
| `Provisioning.PeopleStore.Register` | src/identity/command-handler/identity-register.command-handler.ts:39-56 | identity, event and first session in one transaction; a taken login writes nothing |
| `Provisioning.PeopleStore.ExecuteUserCreate` | src/user/command-handler/user-create.command-handler.ts:16-24 | only an inserted user announces itself |
| `Provisioning.PeopleStore.CreateBuyerIfAbsent` | src/order/repository/order-buyer.repository.ts:10-22 | insert unless identity or user is taken |
| `Provisioning.NeverTwice` | src/user/repository/user.repository.ts:10-21 | at most one user and buyer per identity, one user.created row per user, and sessions for exactly the registered identities, in every reachable state |
| `Provisioning.Converges` | src/generic/kafka/kafka-consumer.service.ts:58-83 | once drained, each identity has exactly one user, that user's account, and a buyer that is that user, after any resends and rewinds |
| `Provisioning.RejectedAreKept` | src/generic/kafka/kafka-consumer.service.ts:64-77 | what a consumer passed over as malformed is on its group's dead-letter topic, and nothing else is |
| `Sessions.SessionStore.Consume` | src/identity/repository/identity-session.repository.ts:20-32 | marks the session used exactly when it is unused, unrevoked and unexpired |
| `Sessions.SessionStore.RevokeFamily` | src/identity/repository/identity-session.repository.ts:42-44 | revokes the family's rows and no others |
| `Sessions.SessionStore.DenyFamily` | src/generic/auth/access-token-denylist.service.ts:20-30 | the entry with its lifetime, also if a write that was given up took effect; throws without an answer unless failing open |
| `Sessions.SessionStore.Refresh` | src/identity/command-handler/identity-refresh.command-handler.ts:21-63 | rotates a consumable token of an existing identity; a used token revokes and denies its whole family; otherwise nothing changes |
| `Sessions.SessionStore.Logout` | src/identity/command-handler/identity-logout.command-handler.ts:16-29 | a known token's family is revoked and denied; an unknown token changes nothing |
| `SessionProofs.OthersWait` | src/identity/repository/identity-session.repository.ts:38-40 | two transactions of a family are never both past the lock |
| `SessionProofs.CommitRotationKeepsInv` | src/identity/command-handler/identity-refresh.command-handler.ts:40-57 | a committing rotation keeps one usable session per family |
| `SessionProofs.CommitRevocationKeepsInv` | src/identity/command-handler/identity-logout.command-handler.ts:25-29 | a committing revocation leaves none, with rotations under way |
| `SessionProofs.AtMostOneUsable` | src/identity/command-handler/identity-refresh.command-handler.ts:40-63 | over all interleavings no two sessions of a family are usable |
| `SessionProofs.RevokedForever` | src/identity/repository/identity-session.repository.ts:20-44 | after a committed revocation no session of the family is usable or created in any later state |
| `SessionProofs.UsableForThirtyDays` | src/identity/service/token.service.ts:50-55 | in every later state a session is usable iff unused, its family unrevoked, and less than 30·24·60·60·1000 ms after it was written |
| `SessionProofs.LoginOpens` | src/identity/service/token.service.ts:46-72 | a login writes its session at that moment, hands it out, and signs an access token |
| `SessionProofs.RefreshRotates` | src/identity/command-handler/identity-refresh.command-handler.ts:40-57 | a usable token presented while the family's lock is free is used up, and a new one of the family, written now, is handed out with an access token |
| `SessionProofs.DeniedTokenPassesOnlyIfSlow` | src/generic/auth/access-token-verifier.service.ts:16-24 | over all runs, a token of a denied family passes only if checked before its end and asked after the entry's: the verification outlasts the time from issue to denial by two milliseconds |
| `SessionProofs.SlowVerificationCanPass` | src/generic/auth/access-token-verifier.service.ts:16-24 | in every reachable state with the family denied, a verification of given length can be timed to pass iff the token is unexpired and the length exceeds that bound |
| `SessionProofs.QuickVerificationNeverPasses` | src/generic/auth/access-token-denylist.service.ts:20-43 | a verification within a millisecond, or no longer than that bound, never passes a denied family's token |
| `SessionProofs.DeniedTokenCanPass` | src/generic/auth/access-token-verifier.service.ts:16-24 | a reachable pass of a denied token, by a verification of two milliseconds |
| `SessionProofs.UndeniedTokenPasses` | src/generic/auth/access-token-verifier.service.ts:16-38 | a token of a family never denied passes iff checked before fifteen minutes and five seconds after its issue |
| `SessionProofs.ShorterEntryWouldLeak` | src/generic/auth/access-token-denylist.service.ts:9 | a denylist entry more than a millisecond shorter than token lifetime plus tolerance would let a token through |
| `RateLimit.Limiter.Increment` | src/generic/rate-limit/redis-throttler.storage.ts:7-35 | the script's new set and expiry, and the reported hits, seconds and block |
| `RateLimit.SameAsTheLog` | src/generic/rate-limit/redis-throttler.storage.ts:12-18 | the expiring key admits exactly what a never-cleaned hit log would |
| `RateLimit.NeverMoreThanLimit` | src/generic/rate-limit/redis-throttler.storage.ts:12-18 | every half-open interval of window length holds at most `limit` admitted hits |
| `RateLimit.AdmittedWhenOldestLeaves` | src/generic/rate-limit/redis-throttler.storage.ts:12-20 | a full key admits exactly from the instant its oldest hit leaves |
| `RateLimit.BlockedKeyIsFull` | src/generic/rate-limit/redis-throttler.storage.ts:12-20 | a refused attempt finds exactly `limit` hits in the window |
| `RateLimit.RetryAfterIsExact` | src/generic/rate-limit/redis-throttler.storage.ts:19-34 | the reported seconds are the least whole number after which a quiet caller is admitted |
| `Cache.RedisKeys.TryLock` | src/generic/cache/cache.service.ts:61-63 | takes the lock exactly when nobody holds it unexpired, as the callers' lock step does |
| `Cache.RedisKeys.Unlock` | src/generic/cache/cache.service.ts:65-67 | removes only the caller's own lock, as the callers' last step does |
| `Cache.StepKeepsData` | src/generic/cache/cache.service.ts:15-59 | every step keeps entries, loads in flight and results true to the row at their read |
| `Cache.StepKeepsFresh` | src/generic/cache/cache.explorer.ts:45-51 | every step keeps each unseen commit accounted for, by a pending delete or one that ran before the store |
| `Cache.StepKeepsTokens` | src/generic/cache/cache.service.ts:24-43 | every step keeps lock ownership and fresh tokens |
| `Cache.ResultsWereTrueRecently` | src/generic/cache/cache.service.ts:15-44 | a returned value was the row's at an instant no older than lifetime + jitter + load time |
| `Cache.BehindExactlyWhenOvertaken` | src/generic/cache/cache.explorer.ts:45-51 | an entry is behind the row iff the last commit came after its read and is not yet deleted for, or was before the store; otherwise it holds the row's value |
| `Cache.OneLoaderAtATime` | src/generic/cache/cache.service.ts:24-33 | within the lock's five seconds nobody else loads under the lock |
| `Cache.UnlockLeavesOthers` | src/generic/cache/cache.service.ts:65-67 | a caller that lost its lock does not release the next owner's |
| `Cache.UnlockFreesOwn` | src/generic/cache/cache.service.ts:65-67 | a caller whose lock has not expired frees it |
| `Cache.StoredIsServed` | src/generic/cache/cache.service.ts:50-59 | a stored value is returned to its loader, and to every call within lifetime plus jitter, to the millisecond, and to none after |
| `Cache.WakingFindsTheValue` | src/generic/cache/cache.service.ts:35-40 | a caller that wakes gets a value stored meanwhile, or goes back to the head of the loop |
| `Cache.LoopSteps` | src/generic/cache/cache.service.ts:22-43 | before the deadline the lock is tried, taken iff free or five seconds old, else fifty milliseconds of sleep; after it, a load without the lock |
| `Cache.MissedDeleteLeavesStaleEntry` | src/generic/cache/cache.explorer.ts:45-51 | a reachable stale entry with no writer left |
| `Pricing.LinesOfItems` | src/order/command-handler/order-place.command-handler.ts:140-165 | every item becomes its line in order, exactly when all offers are known; otherwise the first unknown is reported |
| `Pricing.LinesCostTheCart` | src/order/command-handler/order-place.command-handler.ts:140-165 | over the items and offers alone: the exact total is the sum of quantity times discount price, or price without one, and the exact discount the sum of quantity times the difference |
| `Pricing.FixedIsClosest` | src/order/command-handler/order-place.command-handler.ts:123-124 | toFixed(2) is the closest cent, the larger on a tie (section 21.1.3.3 of ECMA-262) |
| `Pricing.TotalAndDiscountMakeGross` | src/order/command-handler/order-place.command-handler.ts:151-164 | exact total plus exact discount is the sum of price times quantity |
| `Pricing.AmountNear` | src/order/command-handler/order-place.command-handler.ts:151-163 | a line's amount in doubles is within four rounding units of the exact one |
| `Pricing.DiscountNear` | src/order/command-handler/order-place.command-handler.ts:151-164 | a line's discount is within four units of the two prices, cancellation included |
| `Pricing.SumNear` | src/order/command-handler/order-place.command-handler.ts:113-117 | a reduce over n terms is within one unit of the sum per addition, for any n a list can have |
| `Pricing.TotalIsExact` | src/order/command-handler/order-place.command-handler.ts:113-124 | the formatted total is the exact cent sum whenever the error bound is under half a cent |
| `Pricing.DiscountIsExact` | src/order/command-handler/order-place.command-handler.ts:114-124 | the same for the discount |
| `Pricing.StoredAmountsAreExact` | src/order/command-handler/order-place.command-handler.ts:106-129 | up to 4000 lines, amounts the table accepts are exact, and add up to the gross |
| `Pricing.CartIsStoredExactly` | src/order/command-handler/order-place.command-handler.ts:106-165 | the stored total and discount are what the cart costs and saves, told from items and offers |
| `Pricing.AcceptedExactlyWhenExactFits` | src/order/entity/order.entity.ts:36-40 | the table accepts the amounts exactly when the exact ones fit numeric(12,2) |
| `Pricing.AmountRoundTrip` | src/account/gateway/account.gateway.ts:90-96 | an amount text matches the gateway's pattern exactly when below 10^10, and is read back unchanged |
| `Pricing.MatchesExactly` | src/account/gateway/account.gateway.ts:94 | a text matches iff it is one to ten digits, or those, a point, and one or two digits |
| `Pricing.TextValue` | src/account/gateway/account.gateway.ts:94-95 | the value of such a text: one fraction digit counts tens of cents |
| `Pricing.SixteenHundred` | src/order/command-handler/order-place.command-handler.ts:123-124 | two amounts written out: 1600.05 and 0.07 |
| `Pricing.ChargeKeepsTheAmount` | src/account/command-handler/account-customer-charge.command-handler.ts:14-30 | re-formatting is the identity, and a text is accepted exactly when positive |
| `Pricing.ChargedIsExact` | src/account/command-handler/account-customer-charge.command-handler.ts:14-30 | an accepted order is charged the exact sum of its lines |
| `ChargeAmounts.ValidMovementIff` | src/account/gateway/account.gateway.ts:90-96 | a movement is valid iff the customer is a positive safe integer and the amount's text matches and is positive as a double |
| `ChargeAmounts.CartIsCharged` | src/account/command-handler/account-customer-charge.command-handler.ts:14-30 | a placed order of some cost, new and covered, is answered success, and the balance falls by exactly what the cart costs |
| `OrderEvents.OrderNotify.RecordEvent` | src/order/service/order-notify.service.ts:11-26 | refuses an old id, else appends, drops the 101st, and notifies the order's listeners |
| `OrderEvents.OrderNotify.NotifyListeners` | src/order/service/order-notify.service.ts:23-25 | every listener gets the event once, no other stream does |
| `OrderEvents.OrderNotify.GetAfter` | src/order/service/order-notify.service.ts:28-30 | the retained events with a greater id, in order |
| `OrderEvents.OrderNotify.SubscribeStream` | src/order/service/order-notify.service.ts:32-38 | one listener more for this order |
| `OrderEvents.OrderNotify.UnsubscribeStream` | src/order/service/order-notify.service.ts:39-44 | one less, and no empty set left |
| `OrderEvents.OrderNotify.Events` | src/order/controller/orders.controller.ts:15-36 | subscribe, then replay what is after the header through the sent-id filter |
| `OrderEvents.RetainedIsLastHundred` | src/order/service/order-notify.service.ts:18-21 | what is retained of a list is its last hundred, or all of it |
| `OrderEvents.HistoryIsLastHundred` | src/order/service/order-notify.service.ts:11-26 | a history is the last 100 accepted events in strictly ascending id |
| `OrderEvents.RefusedWhenOld` | src/order/service/order-notify.service.ts:14-16 | an event is refused exactly when one at least as new was ever accepted |
| `OrderEvents.StreamSendsWhatIsDue` | src/order/controller/orders.controller.ts:15-50 | a stream has sent exactly the retained events after its header, then every later one not covered by the header |
| `OrderEvents.EveryLaterEventIsSentIff` | src/order/controller/orders.controller.ts:38-50 | every event accepted after the stream began is sent iff the header does not cover the first of them |
| `OrderEvents.HeaderBeyondSilences` | src/order/controller/orders.controller.ts:38-50 | a reachable open stream that was not sent an accepted event |
| `OrderEvents.ResumeHasNoGap` | src/order/controller/orders.controller.ts:15-50 | resuming after an event yields everything after it once, iff at most 100 intervened |
| `OrderEvents.ReconnectLosesNothing` | src/order/controller/orders.controller.ts:15-50 | two streams across a reconnect together send what one unbroken stream would, iff at most 100 events were missed |

## Left out

- RabbitMQ, Kafka, Temporal, Redis and Postgres themselves: they appear as the sets, logs, counters, timed keys and transactions described above.
- Message expiration on the RPCs: it would only remove deliveries, and every theorem holds without it.
- Reservation rows in the locks of a release: only its offer rows are contended by other orders, and a reserve of the same order skips rows that exist.
- Other reserves between the statements of one reserve: in the saga a reserve is one step; only the read of the offers is split from the loop, in `Stock`.
- The identity and user outbox relays: the same code as the order relay.
- `user.created` events without an identity public id: skipped by the buyer consumer because a migration back-filled those buyers.
- Verification with Redis not answering: it is refused, or with fail-open accepted on the signature alone; the theorems are about a denylist that answers.
- JWT signatures, argon2, HMAC, PKCE and keys: tokens are records, and a refresh-token hash stands for its token.
- `getOrLoad` as one method: its awaits let other callers in between, so its loop is the program counter `Cache.Caller`, and only taking and releasing the lock are methods.
- `Pricing.StoredAmountsAreExact`: stated up to 4000 lines; for longer orders `Pricing.TotalIsExact` and `Pricing.DiscountIsExact` give the condition on the sums.
- `RateLimit.Limiter.Increment`: asks for a limit of at least one; with zero the script finds no oldest hit and fails.
- Subnormal and overflowing doubles: the rounding bound is that of normal numbers, and amounts stay far inside their range.
- A second call of one `unsubscribe`: rxjs calls a teardown once.
- Listener order and errors thrown by a listener: streams are independent, and writing to one does not fail in the model.
- OIDC sign-in, ability rules, catalog, product and seller modules, controllers, DTO validation, seeds and migrations: wiring and single-branch checks.
