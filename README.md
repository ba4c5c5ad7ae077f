# snook-api core in Dafny

This project models the back office of a snooker and pool hall:

- **The table-session engine.** This is open, pause, resume, transfer, apply a promotion and close with billing.
- **The stores it reads and writes.**
  - the table registry;
  - the session store, with its fixed update field list;
  - menu items, whose stock is kept by relative increments;
  - orders, payments, creditors and repayments;
  - promotions.
- **The handlers around those stores.**
  - table create, update, status and delete;
  - order place and delete, with stock reservation;
  - payment post and delete, where an `OUTSTANDING` payment opens a creditor;
  - creditor repayment;
  - the revenue reports.
- **The role gate and the error-code table** that every handler answers through.

How the model is built:

- **Stores.** Every store is a class whose records sit in a `map<Id, Record>` field. Its methods state the store's whole new state, including what a failed write leaves behind.
- **Handlers.** Handlers are methods over those classes. Each lists its refusals in the source's order, then says that a refusal changes nothing, then gives the exact new state on success.
- **Billing.** The billing arithmetic is made of pure functions on `real` money. It uses a cents rounding `Round2` that rounds halves away from zero, as `math.Round(x*100)/100` does.
- **Time.** Times are real numbers of minutes. `now` is a parameter of every handler, and it never runs behind the session store's last write.

Three invariants are kept by the handlers. No handler requires them, and none checks them. Each handler promises to keep an invariant whenever it held before the call, except as noted under "## Findings" and "## Left out" (the status endpoint, the transfer of a closed session, a negative outstanding payment):

- **Occupancy.** A table is `IN_USE` exactly when one non-closed session is on it (`Occupancy.Occupied`).
- **Pause bookkeeping.** An open session is `PAUSED` exactly when a pause start is recorded, and that start is never in the future (`SessionUsecase.PauseBookkeeping`).
- **Creditor balance.** Each creditor's paid amount and remaining amount add up to the amount owed, and neither is negative (`CreditorApi.AllBalanced`).

## Model

| member | source | states |
|---|---|---|
| Base.Round2 | app/featues/table_session/usecase/open_table.go:84 | cents rounding: within half a cent of the input, and non-negative for a non-negative input |
| Base.Round2Monotone | app/featues/table_session/usecase/open_table.go:89 | rounding to cents never reverses the order of two amounts |
| Base.Round2Idempotent | app/featues/table_session/usecase/open_table.go:106 | rounding an amount that is already in cents changes nothing |
| Base.PercentOfIsRound2 | app/featues/table_session/usecase/open_table.go:102 | `math.Round(c*p)/100` is `c*p/100` rounded to cents |
| Base.PercentOfWithin | app/featues/table_session/usecase/open_table.go:102 | between 0 and 100 percent of a non-negative amount in cents lies between 0 and that amount |
| Billing.PlayedMinutes | app/featues/table_session/usecase/open_table.go:80-83 | played minutes are the time since the start less the paused total, floored at 0; a pause still in progress is not subtracted |
| Billing.BillableMinutes | app/featues/table_session/usecase/open_table.go:85-88 | billable minutes are the played minutes, but never under 60 |
| Billing.TableChargeAtLeastOneHour | app/featues/table_session/usecase/open_table.go:85-89 | for a non-negative rate, the table charge is at least the hourly rate in cents |
| Billing.TableChargeMonotone | app/featues/table_session/usecase/open_table.go:80-89 | playing longer never costs less |
| Billing.FirstHourIsFlat | app/featues/table_session/usecase/open_table.go:85-89 | any visit of up to 60 played minutes costs exactly one hour |
| Billing.TableCharge | app/featues/table_session/usecase/open_table.go:85-89 | the table charge is never negative for a non-negative rate, and never positive for a non-positive one |
| Billing.PromotionAmount | app/featues/table_session/usecase/open_table.go:96-105 | FREE_HOURS gives `FreeHours` hours at the rate once the played minutes reach `PlayHours` hours and nothing before; DISCOUNT_AMT gives the fixed amount; an unknown type gives nothing |
| Billing.CloseDiscount | app/featues/table_session/usecase/open_table.go:92-106 | the close discount is nothing before a FREE_HOURS threshold and for an unknown type. Once a positive FREE_HOURS threshold is reached, it is `FreeHours` hours at the rate, in cents. For DISCOUNT_AMT it is the fixed amount in cents |
| Billing.PreviewDiscount | app/featues/table_session/usecase/open_table.go:302-315 | the preview discount is nothing before a FREE_HOURS threshold and for an unknown type. Once a positive FREE_HOURS threshold is reached on the time played so far, it is `FreeHours` hours at the rate, in cents. For DISCOUNT_AMT it is the fixed amount in cents |
| Billing.CloseDiscountPercent | app/featues/table_session/usecase/open_table.go:101-106 | a DISCOUNT_PCT promotion at close takes `DiscountPct` percent of the billed table charge, in cents; the second rounding changes nothing |
| Billing.PreviewDiscountPercent | app/featues/table_session/usecase/open_table.go:307-315 | the preview percentage is taken of the played hours times the rate, with no one-hour minimum |
| Billing.PreviewAgreesWithCloseOutsidePercent | app/featues/table_session/usecase/open_table.go:302-315 | for FREE_HOURS, DISCOUNT_AMT and unknown types, the preview and the close compute the same discount for the same played time |
| Billing.PercentDiscountWithinCharge | app/featues/table_session/usecase/open_table.go:101-106 | a percentage between 0 and 100 never discounts below zero or above the table charge |
| Billing.FreeHoursThresholdExample | app/featues/table_session/usecase/open_table.go:97-100 | "play 2 hours, get 1 free" at 100 an hour gives nothing for 119 minutes and 100.00 for 120 minutes |
| Billing.GrandTotal | app/featues/table_session/usecase/open_table.go:116-119 | the grand total is charge + food − discount − promotion discount, floored at 0 |
| Billing.Remaining | app/featues/table_session/usecase/open_table.go:129 | what is left to pay lies within half a cent of grand total − paid |
| Billing.PaidInFullLeavesNothing | app/featues/table_session/usecase/open_table.go:129-130 | a session already paid in full has nothing left to pay, so no final payment is made |
| Billing.FinalPaymentSettles | app/featues/table_session/usecase/open_table.go:129-148 | after the final payment, the payments cover the grand total to within half a cent; an overpayment is left as it is |
| Billing.PausedVisitExample | app/featues/table_session/usecase/open_table.go:80-89 | 90 minutes with a 30-minute pause play 60 minutes, store a duration of 60.00, and cost 100.00 at 100 an hour |
| Billing.ImmediateCloseChargesOneHour | app/featues/table_session/usecase/open_table.go:80-89 | a table closed the moment it opened is charged one hour |
| Billing.PromotionTypesDistinct | app/featues/table_session/usecase/open_table.go:96-105 | the three promotion type strings are distinct, so each switch case is reachable |
| SessionSteps.OpenedSession | app/featues/table_session/usecase/open_table.go:38-46 | the new session is ACTIVE from now, snapshots the table's id, name, type and rate, and has no pause, end or promotion |
| SessionSteps.PausedSession | app/featues/table_session/usecase/open_table.go:178-180 | a paused session is PAUSED, still open, with the pause starting now; no other field changes |
| SessionSteps.ResumedSession | app/featues/table_session/usecase/open_table.go:205-208 | a resumed session is ACTIVE with no pause start, and its paused total grows by exactly now − PausedAt; no other field changes |
| SessionSteps.ReboundSession | app/featues/table_session/usecase/open_table.go:249-254 | the rebound session carries the new table's id, name, type and rate, and the caller as updater; its status, start, pause fields and promotion are kept |
| SessionSteps.PromotedSession | app/featues/table_session/usecase/open_table.go:282-315 | the promoted session carries the promotion's id and name and the caller as updater. Its stored discount is `PreviewDiscount` of the promotion on the minutes played so far at the snapshotted rate. Its status, pause fields, snapshot and totals are kept. A DISCOUNT_AMT promotion stores the amount in cents, and a FREE_HOURS promotion whose threshold is not reached stores nothing |
| SessionSteps.BilledSession | app/featues/table_session/usecase/open_table.go:73-119 | the bill is CLOSED at now. Its stored duration is the played minutes in cents, never negative. It charges the table charge for the played minutes at the snapshotted rate and carries the food total. The grand total is `GrandTotal` of its parts. A promotion that is found is recomputed with `CloseDiscount`. The pause fields and table are kept |
| SessionSteps.PauseThenResume | app/featues/table_session/usecase/open_table.go:178-208 | pausing and then resuming adds exactly the pause's length to the paused total, and changes nothing else |
| SessionSteps.ResumeNeverLowersPausedTotal | app/featues/table_session/usecase/open_table.go:205-208 | resuming at or after the pause start never lowers the paused total |
| SessionSteps.PauseNeverRaisesCharge | app/featues/table_session/usecase/open_table.go:80-89 | more paused minutes never make the table charge larger |
| SessionSteps.BillProperties | app/featues/table_session/usecase/open_table.go:73-119 | the bill closes at now. It charges at least one hour at the snapshotted rate. Its grand total is at least 0. A missing promotion keeps the old promotion discount. A bound body replaces the discount and note. The unwritten fields keep their values |
| SessionSteps.PayType | app/featues/table_session/usecase/open_table.go:131-134 | the final payment's type is the requested one, or CASH when none is given |
| SessionSteps.FinalPayment | app/featues/table_session/usecase/open_table.go:129-143 | a final payment exists exactly when the remaining amount is positive; it is for that amount, on that session, dated now, with the requested payment note (empty when the body is unbound) and the caller as creator |
| SessionSteps.FinalPaymentCoversBill | app/featues/table_session/usecase/open_table.go:122-148 | with or without the final payment, what was paid covers the bill to within half a cent |
| SessionRepo.Overwrite | app/data/repositories/table_session.go:82-107 | an update writes exactly the seventeen listed fields and the update date; id, table type, rate, start time and creation stamp stay as stored |
| SessionRepo.OverwriteStoresExactlyWhenSnapshotKept | app/data/repositories/table_session.go:87-105 | a changed session is stored exactly as changed if and only if its unwritten fields were kept |
| SessionRepo.TableSessionRepository.constructor | app/data/repositories/table_session.go:71-80 | an empty store whose clock starts at the given time |
| SessionRepo.TableSessionRepository.GetTableSessionById | app/data/repositories/table_session.go:53-60 | the stored session, or not found exactly when the id is absent |
| SessionRepo.TableSessionRepository.GetActiveSessionByTableId | app/data/repositories/table_session.go:62-69 | only ever a stored ACTIVE or PAUSED session of that table; none only when there is no such session |
| SessionRepo.TableSessionRepository.GetTableSessions | app/data/repositories/table_session.go:36-51 | exactly the sessions that started within [start, end], both ends inclusive, newest first |
| SessionRepo.TableSessionRepository.GetSessionsByTableId | app/data/repositories/table_session.go:161-176 | the same window, restricted to one table |
| SessionRepo.TableSessionRepository.GetSessionSummary | app/data/repositories/table_session.go:109-135 | the count and the sums of grand total, table charge and food over the CLOSED sessions in the window only; all zero when there are none |
| SessionRepo.TableSessionRepository.CreateTableSession | app/data/repositories/table_session.go:71-80 | a fresh id and both dates set to now; the rest is stored as given; a failed insert stores nothing |
| SessionRepo.TableSessionRepository.UpdateTableSession | app/data/repositories/table_session.go:82-107 | the stored session becomes `Overwrite` of it; an unknown id or a failed write changes nothing |
| SessionUsecase.BookkeepingKeptAsClockAdvances | app/featues/table_session/usecase/open_table.go:178-184 | the pause bookkeeping stays true as the clock moves on |
| SessionUsecase.BookkeepingKeptWhenPauseFieldsKept | app/featues/table_session/usecase/open_table.go:248-260 | rewriting a session without touching its status or pause fields keeps the bookkeeping |
| SessionUsecase.OpenTable | app/featues/table_session/usecase/open_table.go:16-55 | refuses a bad body, a missing table and a table that is not AVAILABLE, in that order, changing nothing. Otherwise it stores the opened session and sets the table IN_USE. Occupancy and the pause bookkeeping hold after the call whenever they held before |
| SessionUsecase.PauseTable | app/featues/table_session/usecase/open_table.go:162-187 | pauses only an ACTIVE session: PAUSED, with the pause starting now and the paused total unchanged. Both invariants hold after the call whenever they held before |
| SessionUsecase.ResumeTable | app/featues/table_session/usecase/open_table.go:189-215 | resumes only a PAUSED session with a pause start. It adds now − PausedAt to the paused total, clears the pause and returns to ACTIVE. When the pause began no later than now, the paused total does not go down. Both invariants hold after the call whenever they held before |
| SessionUsecase.TransferTable | app/featues/table_session/usecase/open_table.go:217-263 | needs the new table to be AVAILABLE, and checks no session status. It stores the rebound session through the session store's field list, frees the old table and takes the new one. The pause bookkeeping holds after the call whenever it held before. Occupancy does too, but only when the session was open or the call was refused |
| SessionUsecase.ApplyPromotionToSession | app/featues/table_session/usecase/open_table.go:265-323 | refuses a CLOSED session or a missing promotion, and ignores the promotion's status, dates and table types. It stores the promotion and the Round2 preview discount on the played time. Both invariants hold after the call whenever they held before |
| SessionUsecase.TransferKeepsOldRate | app/featues/table_session/usecase/open_table.go:248-260 | as written, the stored transferred session keeps the old table's rate, so the close bills the old rate |
| SessionUsecase.CorrectedTransferStoresNewRate | app/featues/table_session/usecase/open_table.go:248-260 | when type and rate are also written, the stored session is exactly the rebound one, billed at the new rate |
| SessionClose.AddUp | app/featues/table_session/usecase/open_table.go:110-126 | the food and payment loops compute the sum of the amounts over the listed records |
| SessionClose.ClosePromotion | app/featues/table_session/usecase/open_table.go:92-94 | the discount is recomputed exactly when the session has a promotion id that the lookup finds |
| SessionClose.ComputeBill | app/featues/table_session/usecase/open_table.go:73-126 | the bill is `BilledSession` with the session's order total as food. The paid total is the sum of the session's payments |
| SessionClose.RecordFinalPayment | app/featues/table_session/usecase/open_table.go:128-148 | inserts the final payment if there is one; a failed insert stores nothing and is reported |
| SessionClose.StoreClosed | app/featues/table_session/usecase/open_table.go:150-157 | writes the closed session and frees its table; a failed write answers TS_BAD_REQUEST_002 and changes nothing. Both invariants hold after the call whenever they held before |
| SessionClose.CloseOpenSession | app/featues/table_session/usecase/open_table.go:73-160 | bills the open session. It records the final payment exactly when the rest to pay is positive. A failed payment insert answers "failed to create payment: " + the error and changes nothing. Otherwise a failed session update answers TS_BAD_REQUEST_002 and keeps the payment. A successful update stores the bill CLOSED and frees the table |
| SessionClose.CloseTable | app/featues/table_session/usecase/open_table.go:57-160 | refuses a bad id, a missing session and a CLOSED session, changing nothing. For an open session it promises what `SessionClose.CloseOpenSession` promises. The final payment is recorded exactly when the rest to pay is positive. A failed insert answers "failed to create payment: " + the error, and the table stays IN_USE. A failed session update answers TS_BAD_REQUEST_002 with the payment kept. Otherwise the billed session is stored CLOSED and its table becomes AVAILABLE. Both invariants hold after the call whenever they held before |
| Occupancy.SetStatus | app/data/repositories/table.go:94-100 | a status write changes that table's status and nothing else |
| Occupancy.AvailableTableIsFree | app/featues/table_session/usecase/open_table.go:33-36 | under occupancy, a table that is not IN_USE has no open session |
| Occupancy.OpenKeepsOccupancy | app/featues/table_session/usecase/open_table.go:47-52 | opening a session on an AVAILABLE table and marking it IN_USE keeps occupancy |
| Occupancy.RewriteKeepsOccupancy | app/featues/table_session/usecase/open_table.go:178-212 | rewriting a session without changing its table or its openness keeps occupancy |
| Occupancy.CloseKeepsOccupancy | app/featues/table_session/usecase/open_table.go:150-157 | closing an open session and freeing its table keeps occupancy |
| Occupancy.TransferKeepsOccupancy | app/featues/table_session/usecase/open_table.go:244-260 | moving an open session to an AVAILABLE table keeps occupancy |
| Occupancy.TransferOfClosedSessionBreaksOccupancy | app/featues/table_session/usecase/open_table.go:234-260 | moving a CLOSED session leaves an IN_USE table with no open session |
| Occupancy.CreateTableKeepsOccupancy | app/featues/table/usecase/create_table.go:20-30 | adding an AVAILABLE table keeps occupancy |
| Occupancy.UpdateTableKeepsOccupancy | app/data/repositories/table.go:70-84 | rewriting a table's descriptive fields keeps occupancy |
| Occupancy.DeleteTableKeepsOccupancy | app/featues/table/usecase/delete_table.go:24-32 | deleting a table that is not IN_USE keeps occupancy |
| Occupancy.StatusEndpointCanFreeOccupiedTable | app/featues/table/usecase/update_table.go:42-60 | setting an IN_USE table to any other status breaks occupancy |
| Occupancy.StatusEndpointCanOccupyFreeTable | app/featues/table/usecase/update_table.go:42-60 | setting a free table IN_USE breaks occupancy |
| Entities.TableStatusOf | app/featues/table/usecase/update_table.go:49-54 | a stored status string is AVAILABLE, IN_USE or kept as any other string |
| Entities.TableStatusRoundTrip | app/featues/table/usecase/update_table.go:49-54 | reading back any stored status string gives the same string |
| TableRepo.OverwriteTable | app/data/repositories/table.go:70-84 | the table update writes name, type, rate, description, updater and update date; status and creation stamp stay |
| TableRepo.TableRepository.constructor | app/data/repositories/table.go:59-68 | an empty registry |
| TableRepo.TableRepository.GetTableById | app/data/repositories/table.go:50-57 | the stored table, or not found exactly when the id is absent |
| TableRepo.TableRepository.GetTables | app/data/repositories/table.go:34-48 | every table, sorted by name ascending |
| TableRepo.TableRepository.CreateTable | app/data/repositories/table.go:59-68 | a fresh id and both dates set to now; the rest is stored as given; a failed insert stores nothing |
| TableRepo.TableRepository.UpdateTableById | app/data/repositories/table.go:70-84 | the stored table becomes `OverwriteTable` of it; an unknown id or a failed write changes nothing |
| TableRepo.TableRepository.UpdateTableStatus | app/data/repositories/table.go:94-100 | only the status changes, whatever the string |
| TableRepo.TableRepository.DeleteTableById | app/data/repositories/table.go:86-92 | removes the table with that id and nothing else |
| TableUsecase.CreateTable | app/featues/table/usecase/create_table.go:13-36 | an unbound body gives TB_BAD_REQUEST_001 and an insert failure gives TB_BAD_REQUEST_002, each storing nothing. Otherwise the new table is AVAILABLE, with the body's fields and the caller as creator. Occupancy holds after the call whenever it held before |
| TableUsecase.UpdateTableById | app/featues/table/usecase/update_table.go:14-40 | a bad id or body gives TB_BAD_REQUEST_001 and a store failure gives TB_BAD_REQUEST_002. Otherwise name, type, rate and description are rewritten and the status is not. Occupancy holds after the call whenever it held before |
| TableUsecase.UpdateTableStatus | app/featues/table/usecase/update_table.go:42-60 | a bad id or body gives TB_BAD_REQUEST_001 and a store failure gives TB_BAD_REQUEST_002. Otherwise any non-empty status string is stored, with no session check |
| TableUsecase.DeleteTableById | app/featues/table/usecase/delete_table.go:12-34 | a bad id gives TB_BAD_REQUEST_001 and a missing table TB_BAD_REQUEST_002. An IN_USE table is refused and left alone. Any other table is deleted. Occupancy holds after the call whenever it held before |
| TableUsecase.StatusChangeAcrossInUseBreaksOccupancy | app/featues/table/usecase/update_table.go:49-54 | any status write that moves a table into or out of IN_USE breaks occupancy |
| MenuRepo.AddStock | app/data/repositories/menu_item.go:103-109 | the `$inc` adds the signed delta to the quantity, with no lower bound, and changes nothing else |
| MenuRepo.AddStockUndone | app/data/repositories/menu_item.go:103-109 | taking stock out and putting the same amount back restores the item |
| MenuRepo.AddStockCombines | app/data/repositories/menu_item.go:103-109 | two increments add up to one |
| MenuRepo.OverwriteMenuItem | app/data/repositories/menu_item.go:75-93 | the update overwrites every descriptive field, including quantity and status; id and creation stamp stay |
| MenuRepo.LowStockDecoded | app/data/repositories/menu_item.go:111-126 | the decoded low-stock listing is in ascending quantity, holds exactly the active items at or under the threshold, and all are at or under it |
| MenuRepo.MenuItemRepository.constructor | app/data/repositories/menu_item.go:64-73 | an empty menu |
| MenuRepo.MenuItemRepository.GetMenuItemById | app/data/repositories/menu_item.go:55-62 | the stored item, or not found exactly when the id is absent |
| MenuRepo.MenuItemRepository.GetMenuItems | app/data/repositories/menu_item.go:35-53 | the items of the category, or every item for an empty category, by name ascending |
| MenuRepo.MenuItemRepository.GetLowStockMenuItems | app/data/repositories/menu_item.go:111-126 | exactly the ACTIVE items with quantity ≤ threshold, in ascending quantity, one entry per item |
| MenuRepo.MenuItemRepository.CreateMenuItem | app/data/repositories/menu_item.go:64-73 | a fresh id and both dates set to now; a failed insert stores nothing |
| MenuRepo.MenuItemRepository.UpdateMenuItemById | app/data/repositories/menu_item.go:75-93 | the stored item becomes `OverwriteMenuItem` of it; an unknown id or a failed write changes nothing |
| MenuRepo.MenuItemRepository.DeleteMenuItemById | app/data/repositories/menu_item.go:95-101 | removes only the item with that id |
| MenuRepo.MenuItemRepository.UpdateMenuItemQuantity | app/data/repositories/menu_item.go:103-109 | the stored item becomes `AddStock` of it; an unknown id or a failed write changes nothing |
| PromotionRepo.NoTableTypeMeansNoRestriction | app/data/repositories/promotion.go:59-86 | with no table type, a promotion is offered exactly when it is ACTIVE and now lies in its inclusive date window |
| PromotionRepo.UnrestrictedPromotionFitsEveryTable | app/data/repositories/promotion.go:69-75 | a promotion whose table types are absent, null or empty is offered for every table type alike |
| PromotionRepo.RestrictedPromotionFitsItsTables | app/data/repositories/promotion.go:69-75 | a promotion with listed table types is offered for a named type exactly when it is offered at all and lists that type |
| PromotionRepo.TableTypeNarrows | app/data/repositories/promotion.go:69-75 | naming a table type only ever narrows the result |
| PromotionRepo.OverwritePromotion | app/data/repositories/promotion.go:99-120 | the update overwrites every listed field, type and status included; id and creation stamp stay |
| PromotionRepo.PromotionRepository.constructor | app/data/repositories/promotion.go:88-97 | no promotions |
| PromotionRepo.PromotionRepository.GetPromotionById | app/data/repositories/promotion.go:50-57 | the stored promotion, or not found exactly when the id is absent |
| PromotionRepo.PromotionRepository.GetPromotions | app/data/repositories/promotion.go:34-48 | every promotion, newest created first |
| PromotionRepo.PromotionRepository.GetActivePromotions | app/data/repositories/promotion.go:59-86 | exactly the promotions offered at now for the table type |
| PromotionRepo.PromotionRepository.CreatePromotion | app/data/repositories/promotion.go:88-97 | a fresh id and both dates set to now; a failed insert stores nothing |
| PromotionRepo.PromotionRepository.UpdatePromotionById | app/data/repositories/promotion.go:99-120 | the stored promotion becomes `OverwritePromotion` of it; an unknown id or a failed write changes nothing |
| PromotionRepo.PromotionRepository.DeletePromotionById | app/data/repositories/promotion.go:122-128 | removes only the promotion with that id |
| Ledgers.OverwriteCreditor | app/data/repositories/creditor.go:76-90 | the creditor update writes paid amount, remaining, status, note, updater and update date; everything else stays |
| Ledgers.OrderRepository.constructor | app/data/repositories/table_order.go:59-67 | no orders |
| Ledgers.OrderRepository.GetTableOrderById | app/data/repositories/table_order.go:50-57 | the stored order, or not found exactly when the id is absent |
| Ledgers.OrderRepository.GetOrdersBySessionId | app/data/repositories/table_order.go:34-48 | exactly the session's orders, newest first |
| Ledgers.OrderRepository.CreateTableOrder | app/data/repositories/table_order.go:59-67 | a fresh id and the creation date set to now; a failed insert stores nothing |
| Ledgers.OrderRepository.DeleteTableOrder | app/data/repositories/table_order.go:81-87 | removes only the order with that id |
| Ledgers.PaymentRepository.constructor | app/data/repositories/payment.go:48-56 | no payments |
| Ledgers.PaymentRepository.GetPaymentsBySessionId | app/data/repositories/payment.go:32-46 | exactly the session's payments, newest first |
| Ledgers.PaymentRepository.CreatePayment | app/data/repositories/payment.go:48-56 | a fresh id, and the creation date overwritten with now; a failed insert stores nothing |
| Ledgers.PaymentRepository.DeletePayment | app/data/repositories/payment.go:58-64 | removes only the payment with that id |
| Ledgers.CreditorRepository.constructor | app/data/repositories/creditor.go:65-74 | no creditors and no repayments |
| Ledgers.CreditorRepository.GetCreditorById | app/data/repositories/creditor.go:56-63 | the stored creditor, or not found exactly when the id is absent |
| Ledgers.CreditorRepository.CreateCreditor | app/data/repositories/creditor.go:65-74 | a fresh id and both dates set to now; repayments are untouched; a failed insert stores nothing |
| Ledgers.CreditorRepository.UpdateCreditor | app/data/repositories/creditor.go:76-90 | the stored creditor becomes `OverwriteCreditor` of it; an unknown id or a failed write changes nothing |
| Ledgers.CreditorRepository.CreateCreditorPayment | app/data/repositories/creditor.go:108-116 | a fresh repayment id and the creation date set to now; creditors are untouched |
| OrderApi.OrderLine | app/featues/table_order/api.go:49-58 | the order snapshots the item's name, price and cost price, and its total is price × qty − discount, floored at 0 |
| OrderApi.PlaceOrder | app/featues/table_order/api.go:32-66 | refuses an unbound body, a missing menu item and too little stock, creating nothing and keeping stock. It never checks the session or the item's status. Stock drops by the quantity only after the insert succeeds |
| OrderApi.DeleteOrder | app/featues/table_order/api.go:68-85 | refuses a bad id and a missing order, leaving stock alone. Otherwise it removes that order and gives its quantity back to its menu item |
| OrderApi.PlaceThenDelete | app/featues/table_order/api.go:32-85 | placing an order and deleting it restores the orders and the stock exactly |
| PaymentApi.PaymentOf | app/featues/payment/api.go:54-57 | the payment copies the session, type, amount and note from the request |
| PaymentApi.PostPayment | app/featues/payment/api.go:47-77 | an OUTSTANDING payment for a session that is found first opens a PENDING creditor for the whole amount. Any other payment, or a session lookup that fails, opens none. The payment is recorded either way, and a failed creditor insert is ignored. Creditors stay balanced for a non-negative amount. The session map has no session under the zero id, as in the session store, so an unparsable session id never opens a creditor |
| PaymentApi.DeletePayment | app/featues/payment/api.go:79-90 | removes only that payment, and touches no session or creditor |
| CreditorApi.NewCreditor | app/featues/payment/api.go:59-67 | the new creditor owes the payment amount, has paid nothing, is PENDING and is named after the note; it is balanced exactly when the amount is non-negative |
| CreditorApi.AmountError | app/featues/creditor/api.go:72-79 | a repayment amount is accepted exactly when 0 < amount ≤ remaining |
| CreditorApi.Repaid | app/featues/creditor/api.go:89-94 | a repayment adds the amount to what was paid and leaves the amount owed alone. What remains is the amount owed less what was paid, floored at 0. The creditor is PAID once what was paid reaches the amount owed, and keeps its status otherwise. No other field changes except the updater |
| CreditorApi.RepayKeepsBalance | app/featues/creditor/api.go:89-94 | an accepted repayment keeps the books balanced, raises what was paid and lowers what remains by exactly the amount, marks the creditor PAID when nothing remains and otherwise keeps its status |
| CreditorApi.PaidCreditorRefusesRepayment | app/featues/creditor/api.go:72-79 | a balanced PAID creditor refuses every repayment |
| CreditorApi.RepayAllKeepsBalance | app/featues/creditor/api.go:76-94 | any run of repay requests keeps a balanced creditor balanced; what was paid grows by exactly the accepted amounts, which never exceed what remained |
| CreditorApi.Repay | app/featues/creditor/api.go:56-98 | refuses a bad id or body, a missing creditor, then a non-positive amount, then an amount over what remains, changing nothing. Otherwise it writes the repayment record and then the repaid creditor. If every creditor was balanced before the call, every creditor is balanced after it |
| ReportApi.EndOfDay | app/featues/report/api.go:26 | the end date is pushed to the last instant of its day, strictly inside that day |
| ReportApi.SumClosed | app/featues/report/api.go:42-48 | the loop adds grand total, table charge and food over the closed sessions of the listing only |
| ReportApi.SumExpenses | app/featues/report/api.go:49-52 | the loop adds the amounts of all the listed expenses |
| ReportApi.ClosedOnlySum | app/featues/report/api.go:42-48 | summing over the closed entries of a window's listing is summing over the window's closed sessions in the store |
| ReportApi.Revenue | app/featues/report/api.go:17-66 | a missing date gives RP_BAD_REQUEST_001, and an unparsable one counts as the zero time. The income, table-charge and food totals are over CLOSED sessions only. The session count includes the open ones. Net profit is income − expenses |
| ReportApi.RevenueAgreesWithSummary | app/featues/report/api.go:17-66 | the report's three totals equal the session store's summary of the same window, while its session count is the count of all sessions in the window |
| ReportApi.RevenueByTable | app/featues/report/api.go:68-97 | refuses a bad table id, a missing date and a malformed start or end date, in that order. Otherwise it returns that table's sessions in the window, newest first |
| Authorization.RequireAuthorization | middlewares/authorization.go:10-30 | an empty role gives SY_FORBIDDEN_001, a listed role passes, and any other role gives SY_FORBIDDEN_002; the loop decides as membership does |
| Authorization.Decision | middlewares/authorization.go:12-27 | the request passes exactly when the role is non-empty and allowed; every refusal is a 403 |
| Authorization.DecisionDependsOnlyOnMembership | middlewares/authorization.go:17-23 | two lists with the same members decide every role alike, whatever their order or duplicates |
| Authorization.EmptyListDeniesEveryRole | middlewares/authorization.go:17-27 | with no auths listed, every request that has a role is denied |
| ErrCode.GetCodeInfo | app/core/errcode/mapping.go:90-93 | ok exactly for the keys of the code table, with that key's entry |
| ErrCode.AuthCodes | app/core/errcode/mapping.go:11-16 | the AU section: every status is its code's middle field, and all are 401 |
| ErrCode.SystemCodes | app/core/errcode/mapping.go:83-87 | the SY section: every status is its code's middle field, and the 500s are the internal errors |
| ErrCode.CodeMapEntriesAgreeWithCodes | app/core/errcode/mapping.go:10-88 | for every entry, the status equals the three-digit middle field of its code (TS-400-002 maps to 400), and the 500s are exactly the internal-error entries |
| ErrCode.UnauthorizedCodesAre401 | app/core/errcode/mapping.go:12-16 | every AU_UNAUTHORIZED code is in the table as a 401 |
| ErrCode.InternalCodesAre500 | app/core/errcode/mapping.go:21-87 | every `*_INTERNAL_001` code (middle field 500) maps to 500 with the internal-error description |
| ErrCode.NotFoundCodeIs404 | app/core/errcode/mapping.go:84 | SY_NOT_FOUND_001 maps to 404 |
| ErrCode.ForbiddenCodesAre403 | app/core/errcode/mapping.go:85-86 | both SY_FORBIDDEN codes map to 403 |
| ErrCode.InternalSystemCodeIs500 | app/core/errcode/mapping.go:87 | SY_INTERNAL_001 maps to 500 with the internal-error description |
| ErrCode.Abort | app/core/errcode/errcode.go:14-16 | emits exactly the given status, code and message |
| ErrCode.AbortByCode | app/core/errcode/errcode.go:18-28 | the code is kept. An unknown code gives 500 with the caller's message. A known code gives its mapped status, and its description when the message is empty |
| ErrCode.AbortAgreesWithAbortByCode | app/core/errcode/errcode.go:14-28 | aborting with a known code's mapped status and a non-empty message is what `AbortByCode` emits |

## Left out

- **I/O.** The database driver, contexts, timeouts, logging and Redis are left out. The stores are in-memory maps.
- **Checked store errors** are an input `fault`: the driver's error text, or none.
- **Ignored store errors** are treated as successful writes:
  - the table status writes after open, close and transfer;
  - the stock `$inc` after placing or deleting an order;
  - the order and payment listings read by `CloseTable`.
- **The internal-error paths** (`TS_INTERNAL_001`, `RP_INTERNAL_001`) are not modelled. These are the listing failures in the report and session handlers.
- **JSON binding and ObjectID hex parsing** are not modelled. A body is bound or unbound, with the binder's message, and an id parses or does not. The order and payment handlers drop the parse error; there an unparsable id becomes the zero id `NilId`.
- **Time.** The clock is a parameter `now` in real minutes. The handlers require it never to run behind the session store's last write.
- **Required fields.** The binder's `required` tag is modelled only where a handler's promise depends on it. `TableUsecase.UpdateTableStatus` requires a bound status to be non-empty, and `PaymentApi.PostPayment` requires a bound amount to be non-zero. Other required fields are not modelled. `time.Now()` inside the repositories is the same `now`.
- **Date parsing.** A report date is modelled as its text together with the midnight it parses to, if any.
- **The expense store** is the range query `expensesIn`, a parameter of the revenue report. The expense repository is not part of this model.
- **Money is `real`.** float64 rounding error is not modelled. `math.Round` is modelled exactly, halves rounded away from zero.
- **Concurrency** is not modelled. Two concurrent closes could each create a final payment; the model runs one operation at a time.
- **Handlers not modelled.** The HTTP handlers that only list or read sessions (`GetTableSessions`, `GetTableSessionById`, `GetActiveSessionByTableId` in open_table.go) are not modelled as handlers. The repository queries they call are.
- **Other repository members.** `GetSessionDailyChart` (date bucketing by string formatting), `UpdateTableOrder`, `GetOrdersByDateRange`, `GetPaymentsByDateRange`, `GetCreditors` and `GetCreditorPayments` are not part of this model.
- **Other middleware.** The authentication middleware (JWT validation) and the CORS, recovery and no-route middleware are not part of this model. The role gate receives the caller's role as a parameter.
- **CRUD scaffolding** for bookings, menu categories, expenses, settings and the dashboard is not part of this model.
- **The close request's payment fields.** The `request.CloseTable` struct in app/domain/request/table_session.go declares only `Discount` and `Note`. The handler reads `req.PaymentType` and `req.PaymentNote` (app/featues/table_session/usecase/open_table.go:131, :140). That type has neither field, so the source as given refers to fields its request type lacks. The model adds both fields to the close body. A final payment's type is then `CASH` unless a type is given, and its note is the given note.
- **PaymentApi.PostPayment** states creditor balance only for a non-negative amount. The handler accepts a negative amount and then opens a creditor whose remaining amount is negative.
- **Negative amounts.** Negative order quantities and discounts pass through unchecked, as in the source.
- **Ordering.** Listings are specified up to the order of equal sort keys. Ties are not broken as the database would break them.
- **Id generation.** New ids come from a counter, as a stand-in for fresh ObjectIDs.

## Findings

| source | as written | input that shows it | evidently intended | confidence | as-written member | corrected member |
|---|---|---|---|---|---|---|
| app/featues/table_session/usecase/open_table.go:251-255 | The transfer sets the session's `RatePerHour` and `TableType` from the new table. `UpdateTableSession` (app/data/repositories/table_session.go:87-105) never writes those two fields, so the stored session keeps the old table's rate. | An open session at rate 100 is moved to an AVAILABLE table at rate 200. The close then reloads the session and bills 100 an hour for the whole visit. | The stored session carries the new table's type and rate. | not executed | SessionUsecase.TransferKeepsOldRate | SessionUsecase.CorrectedTransferStoresNewRate |
| app/featues/table_session/usecase/open_table.go:234-260 | The transfer never checks the session's status. A CLOSED session can be moved: its old table is set AVAILABLE and the new table IN_USE. | Any CLOSED session is transferred to an AVAILABLE table. The new table is then IN_USE with no open session on it. | Refuse to transfer a CLOSED session; for an open session the transfer keeps occupancy. | not executed | Occupancy.TransferOfClosedSessionBreaksOccupancy | Occupancy.TransferKeepsOccupancy |

The handlers `SessionUsecase.TransferTable` and `SessionClose.CloseTable` are modelled as written. `SessionUsecase.TransferTable` promises occupancy only when the transferred session was open.

The admin endpoint `TableUsecase.UpdateTableStatus` can also break occupancy (`TableUsecase.StatusChangeAcrossInUseBreaksOccupancy`). It writes any status string with no look at the sessions. Occupancy is therefore promised by the session handlers and the create, update and delete table handlers, and not by the status endpoint.
