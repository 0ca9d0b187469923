# PurePixel backend: verified models

PurePixel is a marketplace where photographers sell photos and take bookings, and pay for upgrade
packages that give them storage. This project models the parts of its backend in which many
requests, bank webhooks and cron ticks change the same rows, and proves what every run of them
keeps. It also models the self-contained algorithms beside them.

The main model is one state machine over the tables of users, transactions, upgrade orders, photos,
sellings and purchases (`Market`). `MarketStore` is the same thing as a class: each service method
changes the tables step by step, and its contract says that they end up exactly where the step
function of the state machine says. The theorems are about runs of that machine:

- `MarketLinks`: how the rows refer to each other in every reachable state.
- `MarketOrders`: upgrade orders, quota limits, and the credit given over an upgrade history.
- `MarketReasons`: why requests are refused.
- `MarketEffects`: what accepted requests change, row by row.
- `MarketLives`: requests from the step that makes them to the one that settles them.
- `MarketMoney`: conservation of money, solvent wallets, webhooks delivered repeatedly.
- `MarketSales`: pairing of purchases and sales, listings, downloads.

Money is counted in exact reals. A run may contain the manager's generic status patch (`EvPatch`)
unless a theorem asks for `Unpatched(events)`; where the patch breaks an invariant (the books, the
pairing of sales, unpaid pending orders), a lemma says exactly when it does.
Every request, webhook or cron tick is one atomic step, time passes only in `Tick` events, and a
refused request changes nothing.

The other modules stand alone: `Ledger` (the wallet fold) and `Sums`, `Fee` (prorated upgrade fee),
`Calendar` (month arithmetic on time values), `Memo` (payment memo), `Ladder` (sizes on offer),
`ChatDirect` (get-or-create of a conversation under interleaving), `ChatPaging` (reading
backwards), `SoftDelete` (the client that never deletes), `Quota` (storage counter), `Booking`
(customers' schedules) and `Identity` (the identity cache).

Where the code and a comment disagree the code is followed. `Calendar` finds one such place: the
month clamp reads the length of February of the year 0 from 1900 (`Calendar.AsCodedMeetsRule`).

Two promises fail in some runs, and lemmas say exactly when. The code refuses to sell a customer a
size of a photo twice, but does not look again when a pending request is paid
(`MarketSales.SizesAreSoldOnceExactly`; `MarketSales.RelistingSellsTwice` is such a run). The
identity cache is dropped by every successful write, but not by a creation that fails halfway
(`Identity.CacheIsTransparentExactly`; `Identity.HalfwayCreationGoesStale` is such a creation).

## Model

| member | source | states |
|---|---|---|
| Sums.SumPartition | src/admin/crons/generate-dashboard-report.cron.service.ts:281-288 | a fold over all rows is the sum of the folds over the classes of any partition of them |
| Sums.SumOrderIndependent | src/payment/services/sepay.service.ts:142-195 | a fold of row weights depends only on which rows there are |
| Ledger.ReduceIsSum | src/payment/services/sepay.service.ts:142-195 | the reduce with its fall-through switch adds up one weight per row, whatever it starts from |
| Ledger.WalletIsSum | src/payment/services/sepay.service.ts:197-207 | the wallet of a user computed from the user's own rows is the sum, over the whole table, of the weights of that user's rows |
| Ledger.WalletIsEarnedLessSpent | src/payment/services/sepay.service.ts:142-195 | the wallet is the deposits and net sales received, less wallet purchases, wallet upgrades and withdrawals pending or paid |
| Ledger.WalletIgnoresRowOrder | src/payment/services/sepay.service.ts:197-207 | the wallet does not depend on the order in which rows are returned |
| Ledger.WalletsAddUp | src/admin/crons/generate-dashboard-report.cron.service.ts:281-288 | folding everyone's rows gives the sum of all wallets |
| Ledger.DashboardBalance | src/admin/crons/generate-dashboard-report.cron.service.ts:281-306 | the dashboard balance, folded over successful rows only, is the sum of all wallets plus the withdrawals still pending |
| Fee.CreditBounds | src/upgrade-order/services/upgrade-order.service.ts:209-215 | the credit for unused time is never negative, and never more than was paid once the order has begun |
| Fee.CreditIsProportional | src/upgrade-order/services/upgrade-order.service.ts:209-215 | the credit is to the payment as the unused time is to the whole time of the order |
| Fee.QuoteBounds | src/upgrade-order/services/upgrade-order.service.ts:141-232 | amount due within the price, discount and refund within what was paid, and never both an amount due and a refund |
| Fee.QuoteAccountsForPrice | src/upgrade-order/services/upgrade-order.service.ts:141-232 | for whole prices remain + discount - refund is the price in every branch, less one exactly when a fractional credit is taken off a price still owed |
| Fee.OneFormulaExactly | src/upgrade-order/services/upgrade-order.service.ts:141-232 | the three branches are one formula, the price less the unused credit rounded down, if and only if the time lies inside the lifetime or the price (and at the start the payment) is whole |
| Fee.QuoteMeans | src/upgrade-order/services/upgrade-order.service.ts:141-232 | of every quote given: without an active order the months at the package's price; inside its lifetime discount, remain and refund are the shares of the unused time in payment and price, rounded down; at its start the whole payment is credited, from its end on nothing |
| Fee.DiscountAndRefundNeverRise | src/upgrade-order/services/upgrade-order.service.ts:176-232 | later requests never get a larger discount or refund, across all branches and for all prices |
| Fee.RemainNeverFallsExactly | src/upgrade-order/services/upgrade-order.service.ts:176-232 | the amount due never falls over time if and only if the difference owed at the start has no fraction, or the credit used in one millisecond fills it up to the next unit |
| Fee.RemainNeverFalls | src/upgrade-order/services/upgrade-order.service.ts:176-232 | for whole prices the amount due never falls over time |
| Fee.FractionalPriceFalls | src/upgrade-order/services/upgrade-order.service.ts:178-192 | a fractional price whose amount due falls from 10.5 to 10 in the first millisecond |
| Calendar.MakeDayByIndex | src/upgrade-order/services/upgrade-order.service.ts:88-93 | the year and month formulas with carrying months (ECMA-262 section 21.4.1) agree with counting month lengths one by one |
| Calendar.AddCalendarMonths | src/upgrade-order/services/upgrade-order.service.ts:84-98 | the sequence of date setters yields the clamped date n months on and leaves its argument alone |
| Calendar.AsCodedMeetsRule | src/upgrade-order/services/upgrade-order.service.ts:83-98 | the result is the documented one (same day, or the last day of a shorter month, same time of day) if and only if it does not fall on 29 February of the year 0, where it is a day short |
| Calendar.YearZeroLosesItsLeapDay | src/upgrade-order/services/upgrade-order.service.ts:88-93 | a month after any moment of 31 January of the year 0 the code is a day short |
| Calendar.StepMonthsLands | src/upgrade-order/services/upgrade-order.service.ts:83-98 | month, day of month and time of day of the result |
| Calendar.StepMonthsDuration | src/upgrade-order/services/upgrade-order.service.ts:84-98 | n months, documented or as coded, take between 28n and 31n days |
| Calendar.StepMonthsStrict | src/upgrade-order/services/upgrade-order.service.ts:84-98 | a longer order expires strictly later, documented or as coded |
| Calendar.StepMonthsMonotone | src/upgrade-order/services/upgrade-order.service.ts:84-98 | an order placed on a later day never expires on an earlier day, documented or as coded |
| Calendar.StepMonthsOrderExactly | src/upgrade-order/services/upgrade-order.service.ts:84-98 | to the millisecond, of two orders the one placed first expires no later if and only if they are not placed on different days of one month, both clamped, the later day at an earlier time of day |
| Calendar.TimeOfDayIsNotMonotone | src/upgrade-order/services/upgrade-order.service.ts:84-98 | two orders of which the earlier one outlives the later one within a day |
| Calendar.AddMonthsAsCodedLater | src/upgrade-order/services/upgrade-order.service.ts:259-269 | an order of at least one month always expires in the future, so the check for an expiry in the past never refuses |
| Memo.BodyRoundTrip | src/payment/services/sepay.service.ts:216-219 | replacing separators by dashes and lower-casing undoes the encoding of an id, whatever hexadecimal letters were capitalised |
| Memo.FirstMark | src/payment/services/sepay.service.ts:213-213 | noise without a mark forms none with the real mark, so the first mark found is the real one |
| Memo.LastMark | src/payment/services/sepay.service.ts:214-214 | likewise for the last mark |
| Memo.MemoRoundTrip | src/payment/services/sepay.service.ts:209-219 | a memo decodes to the id it encodes if and only if the text around it holds no payment mark |
| Memo.UnmarkedMemoNamesNothing | src/payment/services/sepay.service.ts:213-219 | a memo without any mark decodes to at most two characters |
| Ladder.GetAvailablePhotoResolution | src/photo/services/photo.service.ts:188-224 | both loops terminate with the same sizes, and differ only in where previews are served from |
| Ladder.LadderExactly | src/photo/services/photo.service.ts:194-221 | there is a rung for every reduction that leaves the width at 480 or above, and no other |
| Ladder.LadderGoesDown | src/photo/services/photo.service.ts:188-224 | no rungs exactly below 480; else the first is the photo's own size, each next a fifth smaller rounded down, and the one after the last would be narrower than 480 |
| Ladder.WidthsFall | src/photo/services/photo.service.ts:188-224 | widths fall strictly from the photo's width and stay at least 480 |
| Ladder.RungBounds | src/photo/services/photo.service.ts:188-224 | no rung is larger than the photo, and rungs of a photo at least one pixel high are too |
| Ladder.AspectDrift | src/photo/services/photo.service.ts:209-221 | rounding never moves a rung's aspect ratio by more than four of the photo's longer side in cross product |
| Ladder.RungCount | src/photo/services/photo.service.ts:188-224 | at most k rungs whenever width * 4^k <= 476 * 5^k |
| MarketLinks.PendingShape | src/payment/services/sepay.service.ts:55-92 | only deposits, withdrawals, bank purchases and bank upgrades may be pending, and only withdrawals among them are paid from the wallet |
| MarketLinks.AcceptedQuote | src/upgrade-order/services/upgrade-order.service.ts:235-357 | an accepted request places an order at the quoted price, affordable if paid from the wallet, that expires the given number of calendar months later |
| MarketLinks.StepLinked | prisma/schema.prisma:209-315 | every step keeps orders, purchases and transactions naming each other with equal users, prices and fees |
| MarketLinks.RunLinked | prisma/schema.prisma:209-315 | so does every run, patched or not |
| MarketLinks.StepKeepsTxs | src/payment/services/sepay.service.ts:229-271 | of an existing transaction a step changes at most status and payment method; settled it never waits again and successful it can only be cancelled |
| MarketReasons.RefusedExactly | src/photo/services/photo-exchange.service.ts:322-420 | in every reachable state each step is refused if and only if there is a reason, said of the rows it meets, and with an error whose reason holds |
| MarketReasons.FeeReasons | src/upgrade-order/services/upgrade-order.service.ts:105-140 | a quote is refused if and only if the package is missing, too few months are asked for, or the active order has more quota or the same package |
| MarketEffects.RequestsAdd | src/payment/services/sepay.service.ts:45-105 | an accepted deposit or withdrawal request adds one pending row of that user and sum, and changes nothing else |
| MarketEffects.DecisionsDecide | src/payment/services/transaction.service.ts:34-143 | a decision is accepted if and only if the row is a pending withdrawal, which then is successful or cancelled; every other row is as before |
| MarketEffects.PatchesPatch | src/payment/services/transaction.service.ts:145-173 | an accepted patch sets the status of one pending row and nothing else |
| MarketEffects.TransfersSettle | src/payment/services/transaction-handler.service.ts:37-146 | an accepted transfer of the right amount settles the pending row by its kind: the order becomes the active one with its limits, the purchase is paid and the photographer's sale added; settled rows are left alone |
| MarketEffects.PurchasesRecord | src/photo/services/photo-exchange.service.ts:350-577 | an accepted purchase request records purchase and payment at the tag's size and price, by bank pending, from the wallet paid and sold; all other rows but superseded ones are as before |
| MarketEffects.PurchasesCancelExactly | src/photo/services/photo-exchange.service.ts:378-410 | it cancels an existing transaction if and only if that is the pending payment by the same buyer for the same selling, width, height and price |
| MarketEffects.UpgradesOrder | src/database/repositories/upgrade-package-order.repository.ts:107-265 | an accepted upgrade request adds one order and one transaction at the quoted amounts for both payment methods, cancels exactly the user's pending orders with their transactions, and replaces the active order only when paid from the wallet |
| MarketEffects.QuotesBill | src/upgrade-order/services/upgrade-order.service.ts:141-232 | those amounts are taken of the user's active order, its payment and its lifetime, as `Fee.QuoteMeans` says |
| MarketEffects.ExpiryExpires | src/upgrade-order/services/clear-expired-upgrade-order.cron.service.ts:45-95 | the expiry tick expires exactly the overdue active orders, hides exactly their users' live photos and disables exactly their packages |
| MarketEffects.GoodsStepsChange | src/photo/services/photo-exchange.service.ts:151-278 | every accepted step on photos and sellings changes the photo it names, its sellings, and nothing else |
| MarketLives.DepositArrives | src/payment/services/sepay.service.ts:84-105 | whatever happens in between, the transfer for a pending deposit is accepted and adds its sum to the wallet of the user who asked for it and to no other |
| MarketLives.WithdrawalDecisionIsFinal | src/payment/services/transaction.service.ts:34-143 | in every run an accepted withdrawal stays successful and its sum never comes back to the wallet; a denied one stays cancelled and its sum is back |
| MarketLives.BankPurchaseCompletes | src/photo/services/photo-exchange.service.ts:480-577 | while a purchase by bank is pending, a transfer of the tag's price is accepted, lets it be downloaded at the tag's width and brings the photographer, and nobody else, nine tenths |
| MarketLives.PaidDownloads | src/photo/services/photo-exchange.service.ts:105-149 | a purchase can be downloaded if and only if it is paid, and at the width it was sold at |
| MarketLives.BankUpgradeCompletes | src/payment/services/transaction-handler.service.ts:37-81 | while an upgrade by bank is pending, a transfer of exactly what was quoted is accepted and makes its order the user's only active one, with the package's limits |
| MarketOrders.QuoteFollowsActive | src/upgrade-order/services/upgrade-order.service.ts:105-144 | a quote is taken against the user's only active order: it grants no downgrade and no more discount than that order paid |
| MarketOrders.PlaceOrderCoupled | src/database/repositories/upgrade-package-order.repository.ts:107-265 | cancelling the pending orders and recording the new one keeps orders coupled to their transactions |
| MarketOrders.ActivateOrderCoupled | src/payment/services/transaction-handler.service.ts:37-81 | activation by the bank's webhook keeps them coupled, and the limits become those of the order's snapshot |
| MarketOrders.StepCoupled | src/payment/services/transaction-handler.service.ts:37-81 | every step, patched or not, keeps: one active and one pending order per user at most, active only if paid and with the user's limits, a waiting payment only for a pending order |
| MarketOrders.OrdersFollowTransactions | src/database/repositories/upgrade-package-order.repository.ts:42-75 | the same in every reachable state, and in unpatched runs pending orders are unpaid besides |
| MarketOrders.PatchUnpaidExactly | src/payment/services/transaction.service.ts:145-173 | the manager's patch leaves pending orders unpaid if and only if it does not declare an upgrade paid, failed or cancelled |
| MarketOrders.StepKeepsQuota | src/payment/services/transaction-handler.service.ts:70-81 | no step, patched or not, lowers the photo quota of a user with an active order, even when a webhook activates an order requested long before |
| MarketOrders.QuotaNeverDrops | src/upgrade-order/services/upgrade-order.service.ts:119-126 | the photo quota never drops while the user stays continuously active, in any run |
| MarketOrders.LapsedUsersGoDark | src/upgrade-order/services/clear-expired-upgrade-order.cron.service.ts:45-95 | the expiry tick takes the active order from exactly the users past its time, leaves these no public photo and no enabled package, and the others theirs |
| MarketOrders.DowngradesFollowLimits | src/upgrade-order/services/upgrade-order.service.ts:119-126 | a user with an active order is refused as downgrading exactly the packages with less photo quota than the user's own limit |
| MarketOrders.DowngradesStayRefused | src/upgrade-order/services/upgrade-order.service.ts:105-126 | while a user stays active, a package once refused as a downgrade stays refused, in any run |
| MarketOrders.OrdersLastLongEnough | src/upgrade-order/services/upgrade-order.service.ts:128-132 | every order of every run lasts at least the minimum of months of its package and at most twelve |
| MarketOrders.ClearedUncredited | src/database/repositories/upgrade-package-order.repository.ts:57-75 | cancelling requests credits and refunds nothing, whether a patch declared them paid or not |
| MarketOrders.CreditIsBounded | src/upgrade-order/services/upgrade-order.service.ts:141-376 | over every history, patched or not, the discounts of a user's paid upgrades never exceed what was paid for them; nor do those of the orders that left the pending state |
| MarketMoney.HoldingsAreBooks | src/payment/services/sepay.service.ts:142-195 | wallets, withdrawals, kept fees and paid upgrades together are one sum over the rows |
| MarketMoney.ProcessConserves | src/payment/services/sepay.service.ts:229-271 | a webhook adds to the books exactly the transfer it accepts, and nothing when it accepts none |
| MarketMoney.MoneyIsConserved | src/payment/services/sepay.service.ts:142-274 | in every unpatched run the accepted transfers equal all wallets plus pending and paid withdrawals plus sale fees plus paid upgrades |
| MarketMoney.EveryRunIsAccounted | src/payment/services/sepay.service.ts:142-274 | in every run the books equal the accepted transfers plus what patches minted: deposits and upgrades they declared paid, less those that a later upgrade request cancels |
| MarketMoney.PatchConservesExactly | src/payment/services/transaction.service.ts:145-173 | the manager's patch keeps the books if and only if it does not declare a deposit or upgrade of some amount paid |
| MarketMoney.NoWalletIsNegative | src/payment/services/sepay.service.ts:45-82 | no wallet is ever negative, in any run, patched or not |
| MarketMoney.StepEffect | src/payment/services/sepay.service.ts:142-274 | each step changes each wallet by exactly what it means: a withdrawal is taken at request and comes back when denied or expired, a deposit arrives with the transfer, wallet purchases cost their price and bring nine tenths to the photographer, bank purchases only bring the nine tenths |
| MarketMoney.RunEffects | src/payment/services/sepay.service.ts:142-274 | so a wallet after any run is the wallet before plus these changes |
| MarketMoney.SweepsBoundWaiting | src/payment/cronjobs/payment-clean-up.service.ts:10-56 | after a sweep nothing that was overdue at it is ever pending, in any run: no withdrawal then three days old, no other transaction five minutes old |
| MarketMoney.NeverTwoPendingWithdrawals | src/payment/services/sepay.service.ts:55-68 | no user ever has two pending withdrawals, in any run, patched or not |
| MarketMoney.NeverReopens | src/payment/cronjobs/payment-clean-up.service.ts:10-56 | once a transaction is no longer pending it never is again, in any run |
| MarketMoney.RedeliveryHasNoEffect | src/payment/services/sepay.service.ts:229-231 | a webhook delivered again after it was accepted changes nothing, after whatever other steps |
| MarketMoney.SuccessChangesExactly | src/database/repositories/upgrade-package-order.repository.ts:57-75 | in any linked state a successful transaction changes if and only if it belongs to a pending order that an accepted upgrade request cancels |
| MarketMoney.SuccessIsFinal | src/payment/services/sepay.service.ts:229-231 | in unpatched runs a successful transaction never changes again |
| MarketSales.PatchPairsExactly | src/payment/services/transaction.service.ts:145-173 | the manager's patch keeps the pairing if and only if it does not declare a purchase paid |
| MarketSales.PairedExactly | src/payment/services/transaction.service.ts:145-173 | in every run purchases and sales are paired at the end if and only if no patch ever declared a purchase paid |
| MarketSales.PurchasesAndSalesPair | src/database/repositories/user-to-user-transaction.repository.ts:60-98 | in runs without such a patch each successful purchase payment has exactly one sale of equal amount and fee, and each sale exactly one such payment |
| MarketSales.SalesPayThePhotographer | src/photo/services/photo-exchange.service.ts:375-478 | every sale belongs to the photographer of the photo and brings nine tenths of the price |
| MarketSales.StepKeepsGoods | src/photo/services/photo-exchange.service.ts:191-278 | no step changes a photo's size or photographer or a selling's photo or tags, or reactivates a selling |
| MarketSales.OnSaleExactly | src/photo/services/photo-exchange.service.ts:151-278 | a photo is on sale after a step if and only if the step put it up, under the tags asked for, or it was on sale and is neither taken off nor deleted |
| MarketSales.StepOnShowExactly | src/photo/services/photo.service.ts:450-480 | a step keeps every photo on sale public and watermarked if and only if it is no accepted form that removes its watermark, no unmarking by its booking, no finding of a copy and no expiry of its photographer's order |
| MarketSales.NoRivalOffer | src/photo/services/photo-exchange.service.ts:350-410 | after a purchase request no earlier purchase of the same offer is pending or paid |
| MarketSales.MarketplaceIsListed | src/photo/services/photo-exchange.service.ts:191-410 | in every run: at most one active selling per photo and none on a deleted one, all tags and purchases are rungs of the ladder, one open purchase per offer |
| MarketSales.DownloadsNeverUpscale | src/photo/services/photo-exchange.service.ts:105-149 | a download is between 480 pixels and the photo's own width |
| MarketSales.StepSoldOnceExactly | src/photo/services/photo-exchange.service.ts:350-373 | a step sells no size of a photo to a customer twice if and only if it does not pay for a pending request whose buyer has come to own that size |
| MarketSales.SizesAreSoldOnceExactly | src/photo/services/photo-exchange.service.ts:350-410 | in every run, patched or not, no size of a photo is sold to a customer twice if and only if no step of the run is such a payment |
| MarketSales.RelistingSellsTwice | src/photo/services/photo-exchange.service.ts:378-392 | a run over two listings of a photo in which one customer pays twice for one size |
| MarketStore.Store.CalculateWallet | src/payment/services/sepay.service.ts:197-207 | the loop over the rows computes the user's wallet |
| MarketStore.Store.CreateWithdrawal | src/payment/services/sepay.service.ts:45-82 | refused without change below the minimum, for an unknown user, beyond the wallet computed by the loop over the rows, or with a withdrawal pending; else exactly one pending row is added, as in `EvWithdraw` |
| MarketStore.Store.CreateDeposit | src/payment/services/sepay.service.ts:84-105 | refused without change below the minimum or for an unknown user; else exactly one pending row is added, as in `EvDeposit` |
| MarketStore.Store.ProcessTransaction | src/payment/services/sepay.service.ts:209-274 | unknown rows and unequal amounts are refused without change, settled rows are left alone, and a pending one is settled according to its kind, as in `EvWebhook` |
| MarketStore.Store.HandleUpgradeToPhotographer | src/payment/services/transaction-handler.service.ts:37-81 | closing the active order, settling the payment, activating the order and setting the limits end in the activated state |
| MarketStore.Store.HandleBuy | src/payment/services/transaction-handler.service.ts:120-146 | settling a purchase marks the payment and adds the photographer's sale |
| MarketStore.Store.AcceptWithdrawal | src/payment/services/transaction.service.ts:34-91 | only a pending withdrawal becomes successful; everything else is refused without change, as in `EvAccept` |
| MarketStore.Store.DenyWithdrawal | src/payment/services/transaction.service.ts:93-143 | only a pending withdrawal is cancelled; everything else is refused without change, as in `EvDeny` |
| MarketStore.Store.UpdateTransaction | src/payment/services/transaction.service.ts:145-173 | only a pending row is patched, and declared successful only within the wallet of its user, as in `EvPatch` |
| MarketStore.Store.CleanupPendingTransaction | src/payment/cronjobs/payment-clean-up.service.ts:10-56 | the two bulk updates expire exactly the rows that are overdue for their kind |
| MarketStore.Store.CancelPendingOf | src/upgrade-order/services/upgrade-order.service.ts:280-287 | cancelling pending orders one by one cancels exactly the user's pending orders and their transactions |
| MarketStore.Store.RequestUpgradePayment | src/upgrade-order/services/upgrade-order.service.ts:235-357 | cancelling pending orders in a loop, then creating order and payment, then closing the active order and setting the limits if paid from the wallet, ends in the state of `EvUpgrade`; refusals change nothing |
| MarketStore.Store.DeactivateAndNotifyExpiredOrder | src/upgrade-order/services/clear-expired-upgrade-order.cron.service.ts:45-109 | exactly the active orders past their expiry are found and expire, after their users' photos are hidden and packages disabled, as in `EvExpireOrders`; with none found nothing changes |
| MarketStore.Store.SellPhoto | src/photo/services/photo-exchange.service.ts:191-278 | every tag is checked against the ladder computed by the loop; the earlier selling stops, the photo becomes public and watermarked and the new selling starts, as in `EvSell`; refusals change nothing |
| MarketStore.Store.StopSellingPhoto | src/photo/services/photo-exchange.service.ts:151-181 | the photographer's photo loses its active selling, its watermark and its visibility, as in `EvStop`; refusals change nothing |
| MarketStore.Store.BuyPhotoRequest | src/photo/services/photo-exchange.service.ts:322-577 | cancelling the rival pending purchases in a loop and recording the new one ends in the state of `EvBuy`; when the wallet is too small the cancellations are rolled back |
| MarketStore.Store.DeletePhoto | src/database/repositories/photo.repository.ts:14-33 | a deleted photo is stamped and its sellings stop |
| ChatDirect.DirectKeySymmetric | src/chat/services/chat.service.ts:61-61 | both users of a pair compute the same key |
| ChatDirect.DirectKeyInjective | src/chat/services/chat.service.ts:61-61 | for ids without a colon different pairs have different keys |
| ChatDirect.KeysCollideExactly | src/chat/services/chat.service.ts:61-61 | two pairs share a key if and only if they are the same pair or one has the colon of the key inside an id of the other |
| ChatDirect.ColonsConfuseKeys | src/chat/services/chat.service.ts:61-61 | two different pairs of ids with colons that share a key |
| ChatDirect.StepSound | src/chat/services/chat.service.ts:61-84 | each lookup, insert or repeated lookup of any call keeps keys unique and every call in order |
| ChatDirect.CallersAgree | src/chat/services/chat.service.ts:61-89 | under any interleaving all calls for one key return the same conversation, and none fails for losing the race |
| ChatDirect.OneConversationPerPair | src/chat/services/chat.service.ts:61-84 | a pair of users never has two conversations |
| ChatDirect.CallerGetsOwnConversation | src/chat/services/chat.service.ts:48-89 | when no id in the requests holds a colon, a caller gets the conversation of exactly the two users it asked for |
| ChatDirect.ThreeTurnsSuffice | src/chat/services/chat.service.ts:63-84 | after three database operations of its own every call has an answer, whatever the others do |
| ChatDirect.RequestsSucceedExactly | src/chat/services/chat.service.ts:48-89 | a request to oneself or to somebody not registered fails; every other one returns, after three operations of its own, a conversation for the two users |
| ChatDirect.ChatService.GetOrCreateDirectConversation | src/chat/services/chat.service.ts:48-90 | an undisturbed request is the run of its operations |
| ChatPaging.GetMessages | src/chat/services/chat.service.ts:147-164 | a participant gets the page, reversed in place; anyone else is refused |
| ChatPaging.PageIsNextOlder | src/database/repositories/chat.repository.ts:107-120 | a page holds the newest rows older than the cursor, oldest first, and leaves rows out only at the limit |
| ChatPaging.PageSizes | src/chat/services/chat.service.ts:147-164 | sizes from 1 to 100 are as asked for and others cut to them; a page is that long or holds everything older than the cursor |
| ChatPaging.ReaderMissesNothing | src/chat/services/chat.service.ts:147-164 | at every moment nothing that was there at the first call is missing after the oldest loaded message |
| ChatPaging.EverythingIsLoadedOnce | src/database/repositories/chat.repository.ts:107-120 | once a page comes back short, everything present at the first call has been loaded once and in order, for any page sizes, equal timestamps and inserts in between |
| ChatPaging.LoadedIsOld | src/database/repositories/chat.repository.ts:107-120 | whatever arrives, a loaded message was there at the first call or is older than one that was |
| ChatPaging.CallsAreBounded | src/database/repositories/chat.repository.ts:107-120 | no more calls bring something back than there were messages at the first call, plus later ones with an older place in the order |
| ChatPaging.ReadingEnds | src/database/repositories/chat.repository.ts:107-120 | when what arrives is newer than what was there, only messages of the first call are loaded, in no more calls than there were messages then, however many keep arriving |
| SoftDelete.HookedRefinesDeleting | src/prisma.service.ts:10-217 | each hooked operation answers and acts on the live rows as a store that deletes |
| SoftDelete.RunsRefineDeleting | src/prisma.service.ts:10-217 | so does every run, failed second deletions included |
| SoftDelete.HookedKeepsRows | src/prisma.service.ts:28-46 | no hooked operation removes a row or touches a stamped one |
| SoftDelete.StampsAreDated | src/prisma.service.ts:28-46 | a row that a hooked operation stamps bears the time of the operation and keeps its data unless the operation rewrites it |
| SoftDelete.DeletingTwiceFails | src/prisma.service.ts:199-206 | a second deletion finds no record though the row is still there |
| SoftDelete.UnhookedDeleteMany | src/prisma.service.ts:168-217 | the unhooked bulk delete leaves the right live rows if and only if its own filter does not miss them, and reports the right number as well if and only if the filter sees exactly the live ones among the rows it matches |
| SoftDelete.CreateAgreesExactly | prisma/schema.prisma:408-430 | creation agrees with a store that deletes if and only if no stamped row alone blocks it |
| SoftDelete.Client.Update | src/prisma.service.ts:207-211 | overwriting the filter and updating is the hooked update |
| SoftDelete.Client.FindMany | src/prisma.service.ts:180-184 | overwriting the filter and reading finds the live rows |
| SoftDelete.Client.UpdateWithStamp | src/database/repositories/photo.repository.ts:16-33 | an update that writes the stamp itself is the hooked deletion |
| SoftDelete.Client.Delete | src/prisma.service.ts:199-206 | a delete becomes a hooked stamping update |
| SoftDelete.Client.DeleteMany | src/prisma.service.ts:39-46 | hooked for cameras, really deleting for the other models |
| Quota.StepAccounted | src/user/services/user.service.ts:76-92 | each upload or deletion keeps the counter between zero and what the live photos take, and exact unless an upload is uncounted |
| Quota.UsageIsAccounted | src/user/services/user.service.ts:76-92 | the same in every run |
| Quota.UploadsStayBelowLimit | src/photo/services/photo.service.ts:883-983 | in every run the usage is below the limit after each counted upload; without uncounted ones so is what the live photos take, and an upload is refused only if it would not be |
| Quota.DeletedExactly | src/photo/services/photo.service.ts:615-631 | a photo is deleted if and only if it is live and its photographer or the manager asks; only its photographer's live total falls, by its size |
| Quota.DeleteUndoesUpload | src/photo/services/photo.service.ts:615-631 | deleting a photo just uploaded restores counter and total |
| Quota.UncountedUploadGoesUnseen | src/booking/services/booking.service.ts:516-541 | after a second-version booking upload an exact counter stays exact only for an empty file |
| Quota.Store.UploadPhoto | src/photo/services/photo.service.ts:877-983 | refused without change at or above the limit or for an unknown user; else photo and usage are recorded together, as in `EvUpload` |
| Quota.Store.UpdatePhotoQuota | src/user/services/user.service.ts:76-92 | the counter is reduced, and never below zero |
| Quota.Store.DeleteById | src/photo/services/photo.service.ts:615-631 | only a live photo of the caller, or any live one for the manager, is stamped and its size taken off the usage, as in `EvDelete`; else refused without change |
| Booking.BookedScheduled | src/booking/services/booking.service.ts:762-783 | adding a booking that overlaps no open one keeps the schedule |
| Booking.RebookedScheduled | src/booking/services/booking.service.ts:300-313 | moving a booking to dates that overlap no open one, itself included, keeps the schedule |
| Booking.BookingsStayApart | src/booking/services/booking.service.ts:736-783 | in every run a customer's open bookings are disjoint closed intervals of at least three hours |
| Booking.ClosedForEver | src/booking/services/booking.service.ts:217-268 | a denied or paid booking keeps its status, customer and dates in every run |
| Booking.RequestAcceptedExactly | src/booking/services/booking.service.ts:785-867 | a request is accepted if and only if it is for an enabled package of somebody else, starts a day ahead and keeps the schedule sound; it adds that booking and nothing else |
| Booking.MovedExactly | src/booking/services/booking.service.ts:270-327 | a booking is moved if and only if its photographer asks while it is open, with both dates, a day ahead, three hours long and free of the customer's open bookings; it gets those dates |
| Booking.DecidedExactly | src/booking/services/booking.service.ts:639-712 | accepting and denying take exactly the photographer's requested bookings, paying the accepted ones; only the status changes |
| Booking.WindowsAreBounded | src/booking/services/booking.service.ts:736-783 | a window of length L holds at most L / 3h open bookings of a customer |
| Booking.BookingService.FindOverlap | src/booking/services/booking.service.ts:762-783 | finds an open booking of the customer that meets the closed interval, if there is one |
| Booking.BookingService.RequestBooking | src/booking/services/booking.service.ts:785-867 | the overlap search and the date rules decide as in `EvRequest`, and exactly one requested booking is added; refusals change nothing |
| Booking.BookingService.UpdateById | src/booking/services/booking.service.ts:270-327 | an open booking gets new dates if its photographer asks and they overlap no open booking of the customer, itself included, as in `EvUpdate`; refusals change nothing |
| Booking.BookingService.Accept | src/booking/services/booking.service.ts:639-672 | only a requested booking of the photographer becomes accepted, as in `EvAccept`; refusals change nothing |
| Booking.BookingService.Deny | src/booking/services/booking.service.ts:674-712 | only a requested booking of the photographer becomes denied, as in `EvDeny`; refusals change nothing |
| Booking.BookingService.UpdateBookingToPaid | src/booking/services/booking.service.ts:217-268 | only an accepted booking of the photographer becomes paid, as in `EvPaid`; refusals change nothing |
| Identity.ReadsAreTransparent | src/authen/services/identity.service.ts:226-300 | a cached read answers what the provider would and caches only that |
| Identity.LookupIs | src/authen/services/identity.service.ts:184-200 | an id leads to the first user who brought it along, and if nobody did to the first whom the provider gave it |
| Identity.FoundUser | src/authen/services/identity.service.ts:226-246 | a user found is answered with the provider's data, and under the id asked for unless the user brought another along |
| Identity.ListedByRole | src/authen/services/identity.service.ts:518-545 | the list of the users with a role holds exactly those whose own roles include it |
| Identity.ListedUsers | src/authen/services/identity.service.ts:555-577 | the list of all users holds exactly those of the service |
| Identity.PageIs | src/authen/services/identity.service.ts:593-595 | a page holds the rows from the first asked for on, as many as asked for, or all with -1 |
| Identity.FailsHalfwayExactly | src/authen/services/identity.service.ts:383-430 | a creation is refused with the provider changed if and only if its names are free, and its role does not exist or its id leads outside the service |
| Identity.HalfwayTransparentExactly | src/authen/services/identity.service.ts:383-430 | such a creation leaves the cache true to the provider if and only if no cached list changes with the new user and the new id takes over no cached one |
| Identity.PageChangesExactly | src/authen/services/identity.service.ts:593-595 | a cached page changes with a user more if and only if the end of the list falls in it |
| Identity.StepTransparentExactly | src/authen/services/identity.service.ts:226-577 | every call, refused or not, keeps all cached entries equal to the provider's answers, except exactly a creation that fails halfway and shows in what is cached |
| Identity.CacheIsTransparentExactly | src/authen/services/identity.service.ts:82-88 | over any sequence of calls and evictions the cache stays true throughout if and only if no such creation occurs in it |
| Identity.HalfwayCreationGoesStale | src/authen/services/identity.service.ts:383-403 | a creation for an unknown role leaves a cached list without the new user |
| Identity.UpdateLeavesExactlyTheRole | src/authen/services/identity.service.ts:432-472 | a successful update with a role leaves exactly that role and every group that is not a role |
| Identity.UpdatedExactly | src/authen/services/identity.service.ts:432-472 | an update is refused for its mail if and only if that is another user's; else mail and state are as asked for and nothing besides the roles changes, these only if a role is given |
| Identity.RoleChangedExactly | src/authen/services/identity.service.ts:302-324 | a role is added or removed if and only if user and role exist, and every other group stays |
| Identity.ActivatedExactly | src/authen/services/identity.service.ts:474-516 | disabling and enabling succeed for every user of the service and change that user's state alone |
| Identity.CreatedExactly | src/authen/services/identity.service.ts:383-403 | a creation is refused for exactly a taken mail or name; under a new id it adds an enabled user with exactly the role |
| Identity.OutsidersUntouched | src/authen/services/identity.service.ts:202-215 | no call changes a user outside the service's path, or a group |
| Identity.ForeignEntriesStay | src/authen/services/identity.service.ts:82-88 | no call of the service touches a cache entry of another |
| Identity.ListAll | src/authen/services/identity.service.ts:135-161 | following the next page until it is 0 collects the whole list, and ends |
| Identity.IdentityService.Cached | src/authen/services/identity.service.ts:226-300 | a read as the cached read says |
| Identity.IdentityService.DropCache | src/authen/services/identity.service.ts:82-88 | removes every entry of the service and no other |
| Identity.IdentityService.AddRoleToUser | src/authen/services/identity.service.ts:302-312 | the role read through the cache is added to the user and the cache dropped; an unknown user or role changes nothing at the provider |
| Identity.IdentityService.DeleteRolesFromUser | src/authen/services/identity.service.ts:326-338 | the loop over the roles removes them all and keeps every group that is not a role, and the cache is dropped |
| Identity.IdentityService.UpdateById | src/authen/services/identity.service.ts:432-472 | patching, removing roles and adding the new one, each with its own failure, end where the specification of the update says, cache included |

## Left out

- Interleaving inside a request: each request, webhook or cron tick is one atomic step, so the race between a balance check and the later insert, and the cancellations that are not awaited, are not modelled; only `ChatDirect` works at the granularity of single database operations.
- HTTP, queues, storage, image processing, notifications and the identity provider's own failures: foreign calls. In `Market` the role change that follows an activation is left out.
- Floating point and decimal.js precision: amounts, ratios and balances are exact reals, and whole numbers unbounded.
- A clock that runs backwards: time only moves forward; without that an order could be credited more than it paid.
- Upgrade packages: the enabled package found under the requested id is a parameter of the upgrade request, so edits to the package table are arbitrary.
- MarketStore.Store.ProcessTransaction: takes the row that the memo decodes to; `Memo` covers the decoding, and a memo that decodes to no row is any number outside the table.
- MarketStore: photo uploads, edits and registrations are events of the state machine without a method of their own.
- Photo edits: title, categories, tags and positions; which photos belong to a booking, so that a booking may mark or unmark any photo.
- Shoot packages: their table may be edited arbitrarily; only the disabling at expiry is modelled.
- The booking status override of the manager, which can set any status on any booking.
- Chat: sending, read marks and unread counts, and the bounds on message length.
- ChatPaging: message ids stand for their place in the database's text order.
- SoftDelete: findFirst (an unspecified member of findMany), ordering, includes and nested writes, upsert, aggregate and groupBy, which no hook covers.
- Identity: sessions and tokens removed when a user is disabled, and the text of cache keys (their parts are kept apart as a datatype).
- Memo.MemoRoundTrip: percent-encoding of the memo in the payment link is the identity on its characters and is not modelled.
- Newsfeeds, bills, feature flags, change log, votes, follows and bookmarks: small rules of their own.
