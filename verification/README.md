# Lease, billing and journal model

A Dafny model of the property-management back end's lease, billing, checkout, journal and report logic,
with proofs of what its documentation and code promise. `dafny verify dfyconfig.toml` checks all of it.

## What is modelled

- `Calendar`, `Schedules`, `BillingPeriods`: the Gregorian calendar as day numbers, schedules as ranges of
  days cut at the points of a grid, and the loops of the billing calendar, each proved against its cut.
- `Cadences`: the starts and due dates of every list with the months written out, and the names of the cadences.
- `Leases`, `Billing`, `BillLists`, `LeaseStore`: the lease and bill aggregates as classes, the statements
  of the lease repository, and the event subscribers. A lease is identified by its position in the store
  and a bill by its position in the lease. A transaction is all-or-nothing, and its events are delivered in
  recorded order right after the commit.
- `RentUpdates`, `Books`: the rent change, and the book of an account. The book says what the live bills of
  a lease are: its rent periods in order, each at the rent agreed for its due date, and its electricity
  periods. `Books` proves that every run of rent changes, payments, readings, overdue marks and expiry keeps
  the book. Overdue marks and expiry may come on any day, so the result holds whatever the day is.
  The operation date of a rent change is a parameter; its only caller
  (internal/http/handler/api_server.go:1322) leaves it to the clock, so dates do not go back.
- `RentRequests`: when a rent change is accepted and what it touches.
- `MeterChain`, `Readings`: chains of meter readings, up to the final reading of a checkout, and their rounding
  error; when readings and payments are accepted.
- `Replacement`, `ReplacementTheorems`, `ReplacementTerms`: the boundary test, the replacement command and what
  it leaves behind.
- `Settling`, `ReplacementLimits`: runs that pay or void every bill, where replacement falls short on them, and
  which leases can be replaced at all.
- `Termination`, `LeaseTerms`, `Checkout`, `CheckoutFinalize`, `CheckoutTheorems`, `CheckoutTerms`: lease creation,
  deposit settlement, normal and forced termination, and the previewed and finalized checkout settlement.
- `Occupancy`: runs of all lease commands together, with the rents agreed on for every lease and the set of
  leases that a successor has replaced.
- `Tenancies`, `EndedLeases`: on those runs, which rooms and tenants stay as they are, and what an ended lease
  can still owe.
- `Journal`, `JournalTheorems`, `JournalEntries`: journal logs, their accounting rows and the monthly snapshot.
- `ProfitLoss`: the merge of two months into one report.

Unit prices are assumed not to be negative where it matters; the schema admits positive ones only
(internal/platform/database/migrate/migrations/000003_create_properties_and_rooms.up.sql:5).

Every command is a method on a store object that is proved equal to a function of the store before it; the
theorems are lemmas about those functions. What a command accepts, stores, books and announces is also stated in
terms of its inputs alone, without those functions.

## Findings

Each is stated by a lemma, for all inputs of its kind.

- Replacement voids only pending bills. A predecessor bill from the boundary on that was paid early, written
  off or is overdue stays live beside the successor's bill for the same days
  (`ReplacementTheorems.ReplacementIsExclusive` gives the exact condition;
  `ReplacementLimits.PaidUpIsReplaceable` shows it on every lease paid up in advance).
- The settlement test of a replacement takes voided bills for unpaid ones. A rent change leaves voided bills
  behind for good, so a replacement past one of them is refused even when every other bill is paid, although
  rule DR-L05 of `docs/design/domain-rule.md` only asks for bills before the boundary to be dealt with
  (`ReplacementLimits.VoidedBillsBlock` is the exact condition, `ReplacementLimits.RentChangeBlocksReplacement`
  holds after every run, `ReplacementLimits.SettledLeaseIsRefused` reaches such an account on every
  lease of two rent periods or more).
- A replacement passes no starting reading on, so the successor's first electricity bill counts from zero and
  charges the predecessor's whole reading again (`ReplacementLimits.SuccessorMeterRestarts`,
  `ReplacementLimits.SuccessorIsOvercharged`).
- The monthly snapshot moves rows out of the current ledger. The ledger mirrors the journal when current and
  archived rows are read together, and the archive holds exactly the closed months
  (`JournalTheorems.MirrorSplits`).

## Model

| member | source | states |
|---|---|---|
| Calendar.MonthStartIsGregorian | internal/domain/lease/billing.go:193-201 | the month arithmetic used by every date computation is the Gregorian calendar: the recursive sum of month lengths equals the closed form with the 4, 100 and 400 year rules, for every month before and after year 1 |
| Calendar.MonthOfUnique | internal/domain/lease/billing.go:193-201 | a day lies in exactly one month, so day numbers convert to year, month and day and back |
| Calendar.CivilOfMakeDate | internal/domain/lease/billing.go:193-201 | a valid civil date converted to a day number reads back as the same year, month and day |
| Calendar.MakeDateOfCivil | internal/domain/lease/billing.go:193-201 | a day number read as year, month and day converts back to itself |
| BillingPeriods.BuildAnchoredPeriods | internal/domain/lease/billing.go:98-120 | the rent loop computes the range cut at the anchored grid (`Schedules.Cut`), for any step and anchor, and terminates |
| BillingPeriods.BuildMonthlyPeriods | internal/domain/lease/billing.go:135-157 | the monthly electricity loop computes the range cut at the monthly grid, each period due on the anchor day of its own month |
| BillingPeriods.BuildNaturalBimonthlyPeriods | internal/domain/lease/billing.go:159-187 | the two-month loop computes the range cut at the natural windows |
| BillingPeriods.BuildRentBillingPeriodsFromAnchor | internal/domain/lease/billing.go:36-56 | dispatch and all three errors (date range, anchor, cadence) are those of the rent schedule |
| BillingPeriods.BuildRentBillingPeriods | internal/domain/lease/billing.go:30-32 | the anchor of a full build is the day of the month the lease starts on |
| BillingPeriods.BuildBillingPeriods | internal/domain/lease/billing.go:13-28 | dispatch and errors of the electricity schedule |
| BillingPeriods.BuildMonthlyBillingPeriodsFromAnchor | internal/domain/lease/billing.go:124-133 | monthly periods rebuilt from a later point, with the anchor check |
| BillingPeriods.NextRentPaymentDateAfter | internal/domain/lease/billing.go:66-81 | the stepping loop returns the first point of the payment grid after the operation date; an unsupported cadence steps by one month |
| BillingPeriods.ClampedMonthDate | internal/domain/lease/billing.go:193-201 | normalised month overflow and the clamp together give the anchor day of the right month or its last day |
| Schedules.FirstPointAfterIsLeast | internal/domain/lease/billing.go:66-81 | the next payment date is a schedule point, and exactly the points from it on lie after the operation date |
| Schedules.ScheduleResumes | internal/domain/lease/billing.go:36-81 | rebuilding from the first point after any date gives exactly the periods of the full schedule that begin on or after it |
| Schedules.CutResumes | internal/domain/lease/billing.go:98-120 | rebuilding from any of a schedule's own points gives the rest of the schedule |
| Schedules.CutPrefix | internal/domain/lease/billing.go:98-120 | building only up to one of the schedule's own points gives the periods before it |
| Schedules.CutPeriod | internal/domain/lease/billing.go:98-187 | period k runs from the k-th grid point to the day before the next, or to the end |
| Schedules.CutLength | internal/domain/lease/billing.go:98-187 | there are exactly as many periods as grid points up to the end |
| Schedules.CutTiles | internal/domain/lease/billing.go:98-187 | the periods follow one another without gap or overlap from the start to the end |
| Schedules.TilesCoverOnce | internal/domain/lease/billing.go:98-187 | a tiling covers every day of the range exactly once and no other day |
| BillingPeriods.SchedulesPartition | internal/domain/lease/billing.go:13-56 | every list the builders return, for rent and electricity, any cadence and any anchor 1 to 31, tiles the lease |
| BillingPeriods.AnchoredPoint | internal/domain/lease/billing.go:98-120 | no drift: the k-th point is the original anchor day clamped in month m0 + k * step, so day 31 comes back after a short month |
| BillingPeriods.Nesting | internal/domain/lease/billing.go:83-120 | the k-th point of an m-month cadence is the (m * k)-th monthly point, so quarterly, semiannual and annual starts nest |
| BillingPeriods.WindowOfDay | internal/domain/lease/billing.go:159-187 | a day lies between two consecutive window points exactly when its calendar window is that many windows after the start, across year ends |
| BillingPeriods.BimonthlyQuotient | internal/domain/lease/billing.go:159-187 | two days of the lease share a bimonthly period if and only if they share a Jan-Feb, ..., Nov-Dec window |
| BillingPeriods.MonthlySchedulesAgree | internal/domain/lease/billing.go:98-157 | the monthly rent and the monthly electricity list are equal, due dates included, if and only if the first day is its own clamped anchor |
| BillingPeriods.MonthlyLeaseAgrees | internal/domain/lease/billing.go:13-32 | from the lease start on, monthly rent and monthly electricity always give the same list |
| Cadences.ClampIsCivil | internal/domain/lease/billing.go:193-201 | the anchor day of a month is that day of that civil month, or its last day when the month is shorter |
| Cadences.RentStarts | internal/domain/lease/billing.go:36-56 | a monthly, quarterly, semiannual and annual list starts, and is due, on the first day and then on the anchor day every 1, 3, 6 and 12 months, for as long as the lease lasts |
| Cadences.StartsNest | internal/domain/lease/billing.go:83-120 | the k-th quarterly, semiannual and annual start is the monthly start 3k, 6k and 12k of the same lease |
| Cadences.PaymentPoints | internal/domain/lease/billing.go:66-95 | payment dates lie 1, 3, 6 or 12 months apart from the lease start on, and one month apart for any other cadence |
| Cadences.ElectricityStarts | internal/domain/lease/billing.go:135-187 | monthly electricity starts and is due every month on the own day of the lease; bimonthly electricity starts with each Jan-Feb, ..., Nov-Dec window and is due on the own day of the month it starts in |
| Cadences.RebuiltStarts | internal/domain/lease/billing.go:124-157 | monthly electricity rebuilt from any day keeps the anchor of the lease |
| Cadences.RentRefusals | internal/domain/lease/billing.go:13-56 | a reversed date range is refused first, then an anchor outside 1 to 31, then an unsupported cadence, and nothing else is |
| Cadences.CadenceNames | internal/domain/lease/aggregate.go:18-22 | the five cadence names are read with the blanks around them dropped, and any other text names none |
| Leases.LeaseAggregate.Rehydrate | internal/domain/lease/aggregate.go:64-72 | accepts exactly the states normalisation accepts, with the same error order; cadence texts are trimmed and an empty rent cadence becomes monthly |
| Leases.LeaseAggregate.New | internal/domain/lease/aggregate.go:54-62 | a new lease is active with its deposit held |
| Leases.LeaseAggregate.ChangeRent | internal/domain/lease/aggregate.go:84-94 | the new state, or the error and the old state |
| Leases.LeaseAggregate.SettleDeposit | internal/domain/lease/aggregate.go:97-121 | the new state, or the error (held, sign, reason, sum, in this order) and the old state |
| Leases.LeaseAggregate.Terminate | internal/domain/lease/aggregate.go:124-131 | active and expired leases end; others are refused unchanged |
| Leases.LeaseAggregate.ForceTerminate | internal/domain/lease/aggregate.go:134-152 | status, reason and handling checks; writing off changes the deposit status |
| BillLists.BuildRentBillSeeds | internal/application/lease/update_lease.go:165-184 | one pending rent bill of the given rent for every period, in order |
| BillLists.BuildBillSeeds | internal/application/lease/create_lease.go:209-242 | the rent bills and then one bill awaiting its meter for every electricity period |
| BillLists.VoidingKeepsEarlier | internal/platform/database/leases/repository.go:1184-1223 | when no rent bill from a date on is locked, voiding leaves live exactly the rent bills due before it |
| RentUpdates.UpdateLease | internal/application/lease/update_lease.go:41-163 | the whole new store and the published events, or the error and an unchanged store; nothing changes when the rent is the same |
| RentRequests.RentChangeIsAccepted | internal/application/lease/update_lease.go:84-122 | for a lease in order: a change is accepted if and only if the lease is active, the rent positive, and the rent is unchanged, the payment date lies after the end or no rent bill due on or after it is paid, overdue or written off; each refusal has its exact case |
| RentRequests.OtherChangesAreRefused | internal/application/lease/update_lease.go:41-80 | changes of end date or cadence, and changes without a rent, are refused first, then unknown leases |
| RentRequests.PaymentDateIsFirst | internal/domain/lease/billing.go:66-81 | the payment date is the lease start or a whole number of cadences after it, and the first such day after the operation date |
| RentRequests.RentChangeTouches | internal/application/lease/update_lease.go:112-163 | an accepted change sets the rent, voids exactly the pending rent bills due from the payment date on, adds pending bills of the new rent and one event, and changes nothing else |
| RentRequests.SameRentTouchesNothing | internal/application/lease/update_lease.go:107-110 | a request for the rent an active lease has leaves the store as it is and publishes nothing |
| Books.RentResumes | internal/application/lease/update_lease.go:104-143 | the next payment date cuts the lease's own rent schedule at a period, and the regenerated periods are exactly those due on or after it |
| Books.NewAccountInBook | internal/application/lease/create_lease.go:125-164 | a created lease has exactly its scheduled bills |
| Books.UpdateKeepsBook | internal/application/lease/update_lease.go:104-143 | after an accepted rent change the live rent bills are still the schedule, and exactly the bills due on or after the payment date carry the new rent |
| Books.StepKeepsBook | internal/application/lease/update_lease.go:41-163 | rent changes, payments, meter readings, overdue marks and expiry each keep the book |
| Books.RunKeepsBook | internal/application/lease/update_lease.go:41-163 | any sequence of such steps keeps the book |
| Books.RentScheduleOnEveryRun | internal/application/lease/update_lease.go:104-143 | from creation on and after any run, the live rent bills are the periods of the full build, each at the rent of the last change effective at its due date, else at the original rent |
| Books.EveryRequestIsMet | internal/application/lease/update_lease.go:66-143 | from creation on, over every run whose operation dates never go back (they are read from the clock), each accepted request re-rents exactly the bills due on or after its payment date, requests for the current rent included |
| Books.RentRequestIsMet | internal/application/lease/update_lease.go:104-143 | for any operation date: an accepted request re-rents exactly the bills due on or after its payment date if and only if the stored rent differs from the requested one or no live bill due from that date carries another rent |
| Books.VoidedStaysOnRuns | internal/platform/database/leases/repository.go:1205-1223 | a voided bill stays at its position as it is, over every run of account steps |
| Books.EarlierRequestIsIgnored | internal/application/lease/update_lease.go:66-110 | the order of the dates is needed: were a second request dated before the first and for the same rent, the bills in between would keep the original rent |
| Replacement.IsReplacementBoundary | internal/application/lease/replace_lease.go:264-279 | the loop with its two flags computes that the last bill of each kind ending the day before is complete |
| Replacement.FlagOfAgreeingBills | internal/application/lease/replace_lease.go:264-279 | the flag does not depend on the order of the bills when those that end the day before agree |
| Replacement.UnsettledBeforeBoundary | internal/application/lease/replace_lease.go:307-319 | the loop returns the positions of exactly the bills that end before the boundary and are not paid |
| Replacement.HorizonSuffices | internal/application/lease/replace_lease.go:281-305 | the two-year horizon always reaches the next grid point, for every cadence, leap days included |
| Replacement.CompleteMeansFull | internal/application/lease/replace_lease.go:281-305 | a bill is complete if and only if it runs up to the next unbounded grid point after its own start |
| Replacement.BoundaryIsExact | internal/application/lease/replace_lease.go:264-305 | on the bills of a kept book, listed in any order, the boundary test holds if and only if the date is a later point of both unbounded schedules and at most the day after the lease ends; a bill cut short by the lease end counts only if it ends on a grid point |
| Replacement.ReplaceLease | internal/application/lease/replace_lease.go:60-262 | the whole new store and the three events in order, with the reason and the changed fields, and the predecessor's termination reason, or the error and an unchanged store |
| Replacement.ReplacementChangedFields | internal/application/lease/replace_lease.go:321-337 | the changed terms, in the order rent, end date, electricity cadence, rent cadence |
| ReplacementTheorems.ReplacementTiles | internal/application/lease/replace_lease.go:141-210 | the paid predecessor bills before the boundary and the successor's bills tile every day from the old start to the new end, for rent and electricity; no predecessor bill straddles the boundary; the successor starts a kept book |
| ReplacementTheorems.ReplacementIsAccepted | internal/application/lease/replace_lease.go:87-171 | on a kept book a replacement succeeds if and only if all listed conditions hold, the boundary stated as schedule membership, and every bill before it, voided ones included, is paid; an otherwise acceptable request fails on exactly the unpaid bills |
| ReplacementLimits.PaidUpIsReplaceable | internal/application/lease/replace_lease.go:175-181 | on every lease a run pays all bills; replaced at any common point it then succeeds, and unless the lease is at its end the days after the boundary stay covered twice, for rent and for electricity |
| ReplacementTheorems.ReplacementIsExclusive | internal/application/lease/replace_lease.go:179-181 | the live bills of both leases together cover each day once if and only if no predecessor bill of the kind that ends on or after the boundary had been paid, written off or marked overdue |
| ReplacementLimits.SchedulesMeetExactly | internal/application/lease/replace_lease.go:264-305 | rent and electricity have a later common point if and only if electricity is monthly, or the lease starts on the 1st and either its rent step is odd or its start month opens a two-month window |
| ReplacementLimits.NeverReplaced | internal/application/lease/replace_lease.go:145-147 | a lease in its book whose schedules have no later common point is never replaced, whatever is asked for and however its bills stand |
| ReplacementLimits.VoidedBillsBlock | internal/application/lease/replace_lease.go:307-319 | with all bills before the boundary that are not voided paid and all else in order, a replacement succeeds if and only if no voided bill ends before the boundary, and otherwise names only voided bills |
| ReplacementLimits.RentChangeBlocksReplacement | internal/application/lease/replace_lease.go:307-319 | once a rent change has voided a bill, every otherwise acceptable replacement past that bill is refused on it, after any run that follows |
| ReplacementLimits.SettledLeaseIsRefused | internal/application/lease/replace_lease.go:307-319 | on every lease of two rent periods or more a run reaches an account whose bills are all paid or voided and whose otherwise acceptable replacement is refused |
| ReplacementLimits.SuccessorMeterRestarts | internal/application/lease/replace_lease.go:184-197 | the successor's readings start at zero |
| ReplacementLimits.SuccessorIsOvercharged | internal/application/lease/replace_lease.go:184-197 | on every lease, replaced while its meter stands at a reading, the first bill of the successor charges that whole reading on top of the consumption since |
| ReplacementTheorems.CutAtPoint | internal/application/lease/replace_lease.go:141-177 | a schedule cut at one of its later points keeps exactly the periods before it, and they tile up to it |
| ReplacementTerms.SuccessorTerms | internal/application/lease/replace_lease.go:152-209 | the successor has the tenant, room, property and deposit of the predecessor, held, is active with the requested rent, dates and cadences, and owes only unpaid bills of its own schedules |
| ReplacementTerms.PredecessorTerms | internal/application/lease/replace_lease.go:164-181 | the predecessor ends the day before with its reason, exactly its pending bills that end on or after the boundary are voided, and nothing else changes |
| ReplacementTerms.ReplacementEvents | internal/application/lease/replace_lease.go:211-246 | termination, creation and replacement are recorded in this order, and the changed terms are exactly those named |
| ReplacementTerms.ReplacementRefusals | internal/application/lease/replace_lease.go:60-262 | on a kept book, every answer to a request for a replacement in the order of the checks, each in its exact case, up to the requested terms |
| Termination.CreateLease | internal/application/lease/create_lease.go:56-186 | the whole new store and the event, or the error and an unchanged store; only a vacant room is taken |
| Termination.RecordDepositAccountingEntries | internal/application/lease/update_deposit.go:167-219 | the refund row is negative, the deduction row positive, and nothing else is written |
| Termination.UpdateDeposit | internal/application/lease/update_deposit.go:50-149 | the whole new store, or the error and an unchanged store |
| Termination.SettlementConservesDeposit | internal/application/lease/update_deposit.go:167-219 | the magnitudes of the rows of an accepted settlement sum to the deposit |
| Termination.UnpaidBillIDs | internal/application/lease/terminate_lease.go:429-441 | the positions of exactly the bills that are not paid, voided or written off |
| Termination.TerminateLease | internal/application/lease/terminate_lease.go:41-161 | the whole new store, termination reason included, and the events, or the error and an unchanged store |
| Termination.TerminationLeavesNothingUnpaid | internal/application/lease/terminate_lease.go:71-73 | after a normal termination no bill is unpaid, the added rows account for the deposit, the settlement, the end date and the reason are recorded and no other lease changes |
| Termination.ForceTerminateLease | internal/application/lease/terminate_lease.go:188-330 | the whole new store, the trimmed reason included, and the event, or the error and an unchanged store; a blank reason and an empty deposit handling are refused before the lease is looked up |
| Termination.ForcedTerminationLeavesNothingUnpaid | internal/application/lease/terminate_lease.go:263-286 | after a forced termination no bill is unpaid, every other bill and every other lease is untouched, and exactly a written-off deposit is booked |
| LeaseTerms.CreationIsAccepted | internal/application/lease/create_lease.go:56-124 | a lease is created if and only if the starting reading is not negative, tenant and room exist, the room is vacant and dates, rent, deposit and both cadences are sound; the first four refusals have their exact cases |
| LeaseTerms.UnsoundTermsAreNamed | internal/domain/lease/aggregate.go:154-185 | unsound terms are refused in the order dates, rent, deposit, rent cadence, electricity cadence |
| LeaseTerms.CreatedTerms | internal/application/lease/create_lease.go:105-186 | the lease that is added has the requested terms, the property of the room, the electricity cadence asked for or else that of the room, and only unpaid bills; nothing else changes |
| LeaseTerms.SettlementRefusals | internal/domain/lease/aggregate.go:97-121 | a settlement is refused because the deposit is not held, an amount is negative, a deduction has no reason or the sum is wrong, each in its exact case |
| LeaseTerms.DepositIsSettled | internal/application/lease/update_deposit.go:50-149 | a deposit is settled if and only if the lease is in order and the settlement is sound; the settlement is stored, its rows and events are exactly one for each amount that is not zero, and nothing else changes |
| LeaseTerms.TerminationIsAccepted | internal/application/lease/terminate_lease.go:41-161 | a normal termination succeeds if and only if nothing is owed, the settlement is sound and the lease is active or expired; otherwise exactly the owed bills are named first |
| LeaseTerms.TerminatedTerms | internal/application/lease/terminate_lease.go:90-161 | what a normal termination stores, books and announces, field by field |
| LeaseTerms.HandlingNames | internal/domain/lease/aggregate.go:24-25 | the two names of the deposit handling |
| LeaseTerms.ForcedTerminationIsAccepted | internal/application/lease/terminate_lease.go:188-262 | a forced termination succeeds if and only if it has a reason and a known deposit handling and an active or expired lease that has begun; each refusal has its exact case |
| LeaseTerms.ForcedTerms | internal/application/lease/terminate_lease.go:263-330 | what a forced termination stores, writes off, books and announces, field by field |
| Billing.BillAggregate.RecordMeter | internal/domain/billing/aggregate.go:78-100 | the new bill with its rounded amount, or the error and the old bill |
| Billing.BillAggregate.RecordPayment | internal/domain/billing/aggregate.go:103-124 | the new bill, or the error and the old bill |
| Billing.LatestMeteredIsLast | internal/platform/database/billing/repository.go:802-833 | the reading that counts is that of the last metered bill before the date, in the order by period end, due date and creation |
| Billing.RecordMeter | internal/application/billing/record_meter.go:37-115 | a reading is recorded from the latest earlier reading of the lease, or its starting reading; a missing unit price is an error |
| Billing.AmountMonotone | internal/domain/billing/aggregate.go:78-100 | at a price that is not negative, amounts are never negative and grow with the consumption |
| Billing.HalvesRoundAway | internal/domain/billing/aggregate.go:78-100 | an exact half is rounded away from zero |
| Billing.NearestIsBilled | internal/domain/billing/aggregate.go:78-100 | a price less than half from a whole amount is billed as that amount |
| Readings.PreviousStands | internal/platform/database/billing/repository.go:802-833 | a reading counts from the reading of the last bill read before the period, or else the starting reading of the lease, or else zero |
| Readings.ReadingIsAccepted | internal/application/billing/record_meter.go:37-115 | a reading is accepted if and only if the bill is electricity awaiting its meter, a price is known and the meter has not run backwards; the bill it leaves and each refusal are exact |
| Readings.PaymentIsAccepted | internal/domain/billing/aggregate.go:103-124 | a payment is accepted if and only if the bill is payable or overdue and the amount is exactly the amount owed; each refusal has its exact case |
| Readings.MarksAndExpiry | internal/application/jobs/batch.go:104-200 | only a payable bill becomes overdue and only an active lease expires |
| MeterChain.ReadingsChain | internal/application/billing/record_meter.go:61-89 | from any account, readings recorded in period order each start where the one before ended and the first where the lease stood, whatever payments, rent changes and other steps come in between; no other reading changes |
| MeterChain.RoundingErrorIsBounded | internal/domain/billing/aggregate.go:78-100 | when n such readings are recorded, their rounded amounts differ from price * (last - first) by at most n/2 |
| Readings.CheckoutClosesChain | internal/application/lease/checkout_settlement.go:612-665 | after n chained readings and any other steps, the final charge of a checkout counts from the last reading, and all amounts together differ from price * (final - first) by at most (n + 1)/2 |
| Readings.FinalChargeIsExact | internal/application/lease/checkout_settlement.go:612-708 | the final charge runs from where the meter stood before the final bill, or by the checkout day when there is none, to the final reading; when there is none and when it is refused is exact |
| Checkout.CheckoutResolvablePendingMeterBill | internal/application/lease/checkout_settlement.go:686-708 | the only bill awaiting its meter, if there is exactly one, it is electricity, ends on the checkout day and a reading is given |
| Checkout.CheckoutElectricityCalculationAllowed | internal/application/lease/checkout_settlement.go:667-684 | a calculation needs a reading, no unpaid bill, and no pending meter other than the resolvable one |
| Checkout.CalculateCheckoutElectricity | internal/application/lease/checkout_settlement.go:612-665 | the calculation, nothing, or the missing price or falling reading |
| Checkout.CheckoutSettlementTotals | internal/application/lease/checkout_settlement.go:598-610 | the totals of the refund and of the charge lines |
| Checkout.CheckoutSettlementBlockers | internal/application/lease/checkout_settlement.go:558-591 | the blockers in order: lease, deposit, date, refund decision, one per open bill, charge above deposit |
| Checkout.BuildCheckoutSettlement | internal/application/lease/checkout_settlement.go:478-556 | the whole proposal: lines, blockers, totals, net, and a token exactly when nothing blocks |
| CheckoutFinalize.CheckoutDeductionReasonExcludingKind | internal/application/lease/checkout_settlement.go:790-814 | the joined labels of the positive charges that are not excluded |
| CheckoutFinalize.FinalizeCheckout | internal/application/lease/checkout_settlement.go:197-362 | the whole new store, the events and the settlement, or the error and an unchanged store |
| CheckoutFinalize.RecordCheckout | internal/application/lease/checkout_settlement.go:309-326 | the rows of the deposit, the rent refund and the electricity, and the bill the electricity pays |
| CheckoutFinalize.SettleElectricityBill | internal/platform/database/leases/repository.go:840-882 | the bill is paid if its version matches and it is electricity awaiting its meter; otherwise nothing changes |
| CheckoutTheorems.LineTotals | internal/application/lease/checkout_settlement.go:478-610 | refund lines total the deposit and the rent refund, charge lines total the fees and the electricity |
| CheckoutTheorems.NoBillBlockers | internal/application/lease/checkout_settlement.go:573-586 | no bill blocks if and only if nothing is unpaid or overdue and every bill awaiting its meter is the resolvable one |
| CheckoutTheorems.PendingMeterIsSettled | internal/application/lease/checkout_settlement.go:558-713 | without blockers the only bill awaiting its meter is the one the electricity calculation settles |
| CheckoutTheorems.DeductionHasReason | internal/application/lease/checkout_settlement.go:790-814 | a positive total charge always yields a reason the aggregate accepts |
| CheckoutTheorems.UnblockedCheckoutSucceeds | internal/application/lease/checkout_settlement.go:231-275 | at a unit price that is not negative, finalizing an unblocked preview on unchanged state never fails, commits the previewed settlement and leaves no bill unpaid |
| CheckoutTheorems.CheckoutConservesMoney | internal/application/lease/checkout_settlement.go:239-326 | at a unit price that is not negative the refund, deduction and electricity rows sum to the deposit; deposit refund and rent refund sum to the net amount; the net is never payable; the clamps never fire |
| CheckoutTheorems.TokenBindsPreview | internal/application/lease/checkout_settlement.go:213-237 | whenever a token is accepted, on whatever state and inputs, the committed inputs, lines, totals, lease version and bill list are the previewed ones |
| CheckoutTheorems.ChangedStateIsRefused | internal/application/lease/checkout_settlement.go:229-237 | a token previewed on one state and finalized on another is refused as blocked if and only if the new proposal is blocked, and else as stale if and only if an input, a line, the lease version or the bill list has changed |
| CheckoutTerms.InputIsAccepted | internal/application/lease/checkout_settlement.go:431-462 | which inputs are accepted, the refusals in order, and the trimmed input that is kept |
| CheckoutTerms.LinesAreExact | internal/application/lease/checkout_settlement.go:478-520 | the settlement has exactly the lines that apply, each with its amount and description, in the order of the kinds |
| CheckoutTerms.TotalsAreExact | internal/application/lease/checkout_settlement.go:520-610 | totals, net amount and direction, and a token of exactly the previewed fields if and only if nothing blocks |
| CheckoutTerms.BlockersAreExact | internal/application/lease/checkout_settlement.go:558-591 | each blocker is listed if and only if its case holds |
| CheckoutTerms.ReasonsAreExact | internal/application/lease/checkout_settlement.go:790-814 | the reasons of the deduction name the positive charges in order, the other fee with its trimmed description |
| CheckoutTerms.JoinedAppend | internal/application/lease/checkout_settlement.go:794-814 | joined reasons are separated by exactly one ideographic comma |
| CheckoutTerms.FinalizingIsAccepted | internal/application/lease/checkout_settlement.go:197-237 | on a lease in order, at a unit price that is not negative, finalizing succeeds if and only if the token is that of a preview without blockers; each refusal has its exact case |
| CheckoutTerms.FinalizedTerms | internal/application/lease/checkout_settlement.go:239-362 | what finalizing stores, pays, books and announces: the lease, the bill of the final reading, one row for each amount that is not zero, and the events |
| LeaseStore.LeaseDb.Publish | internal/platform/database/txrunner/runner.go:46-71 | events are delivered one after the other in recorded order after the commit |
| LeaseStore.LeaseDb.MarkRoom | internal/platform/database/leases/repository.go:1296-1326 | the status of an existing room is set |
| LeaseStore.LeaseDb.DeactivateTenantIfNoActiveLeases | internal/platform/database/leases/repository.go:1345-1366 | a tenant becomes inactive exactly when no active or expired lease is left |
| Occupancy.LeaseHandedOver | internal/application/lease/subscribers.go:23-81 | the termination and creation events of a replacement hit the same room and tenant and leave room and tenant as they should be |
| Occupancy.CommandKeeps | internal/application/lease/subscribers.go:23-81 | every command with its events delivered keeps occupancy consistent and every live lease in its book |
| Occupancy.RunKeeps | internal/application/lease/subscribers.go:23-81 | on every run a room is occupied if and only if it has a live lease, never has two, of the tenants that had a lease exactly those with a live one are active, and every live lease carries its scheduled bills at the signed rent and the changes accepted on the run |
| Occupancy.RunFromEmpty | internal/application/lease/create_lease.go:94-105 | the same from a system without leases on |
| Occupancy.LeaseIsFollowed | internal/application/lease/subscribers.go:23-81 | in such a state the room of any lease, past ones included, is occupied if it has a live lease and vacant otherwise, and its tenant is active if and only if it has one |
| Tenancies.RunLeavesOthers | internal/application/lease/subscribers.go:23-81 | no run changes a room or tenant that no lease names, or anything of a room but its status |
| Occupancy.RentCommandIsStep | internal/application/lease/update_lease.go:41-163 | the stored effect of an accepted rent change is the account step the book theorems speak of |
| Occupancy.EveryReplacementTiles | internal/application/lease/replace_lease.go:60-262 | every replacement accepted in a reachable state leaves no gap and no overlap |
| Occupancy.EveryUnblockedCheckoutSucceeds | internal/application/lease/checkout_settlement.go:197-362 | every unblocked preview taken in a reachable state is accepted when finalized |
| EndedLeases.CommandKeepsClosed | internal/application/lease/terminate_lease.go:263-286 | every command keeps the bills of ended leases closed |
| EndedLeases.RunKeepsClosed | internal/application/lease/terminate_lease.go:71-73 | on every run a lease that was terminated, force-terminated or checked out never has an unpaid bill again, and a replaced one only overdue bills that end on or after the boundary |
| EndedLeases.ClosedFromEmpty | internal/application/lease/replace_lease.go:148-181 | the same from a system without leases on |
| Journal.JournalAggregate.Rehydrate | internal/domain/journal/aggregate.go:29-46 | the normalised log, or a blank content is refused |
| Journal.JournalAggregate.Update | internal/domain/journal/aggregate.go:49-70 | exactly the given fields change, or a blank content is refused and nothing does |
| Journal.JournalDb.Create | internal/application/journal/create.go:45-167 | the whole new journal, or the error and an unchanged one |
| Journal.JournalDb.Update | internal/application/journal/update.go:34-138 | the whole new journal, or the error and an unchanged one; the row is written again only when the accounting fields changed |
| Journal.JournalDb.Delete | internal/application/journal/delete.go:29-73 | the whole new journal, or the error and an unchanged one |
| Journal.JournalDb.SyncExpenseAccountingEntry | internal/server/journal_adapters.go:40-66 | the row of a log is replaced or removed; a missing account is an error |
| Journal.JournalDb.RunMonthlySnapshot | internal/application/jobs/batch.go:262-284 | the journal and the three counters after the job |
| JournalTheorems.CreateKeepsMirror | internal/application/journal/create.go:98-147 | creating a log keeps ledger and journal in step |
| JournalTheorems.UpdateKeepsMirror | internal/application/journal/update.go:64-162 | updating a log does, including the updates that skip the ledger |
| JournalTheorems.DeleteKeepsMirror | internal/application/journal/delete.go:43-63 | deleting a log does |
| JournalTheorems.RunKeepsMirror | internal/application/journal/update.go:34-138 | in every reachable state a log has exactly one ledger row if it is live with an expense and none otherwise, and the row carries its amount, description, title and Taipei month |
| JournalTheorems.MirrorSplits | internal/platform/database/billing/repository.go:573-668 | that row is in the archive exactly when its month is snapshotted |
| JournalTheorems.FrozenMonthStaysFrozen | internal/application/jobs/batch.go:262-282 | once a month is closed, no run of commands and jobs changes its rows |
| JournalTheorems.SnapshotFreezes | internal/platform/database/billing/repository.go:573-668 | a snapshot closes a month with exactly the rows it had |
| JournalTheorems.JobClosesMonth | internal/application/jobs/batch.go:262-284 | after the job every listed property with an account has its month closed, and the counters add up |
| JournalTheorems.RerunChangesNothing | internal/application/jobs/batch.go:262-284 | a second run changes nothing and processes nothing |
| JournalEntries.BookedInTaipei | internal/application/journal/helpers.go:77-80 | a row is booked on the day of its instant, from 16:00 UTC on the next day, and in the civil month of that day |
| JournalEntries.CivilBooking | internal/application/journal/helpers.go:77-80 | the same for every valid civil date and every second of it |
| JournalEntries.CreationIsAccepted | internal/application/journal/create.go:45-190 | each refusal of a new log has its exact case, the closed month among them; an accepted log and its row carry what was given, on the Taipei day and in its month |
| JournalEntries.UpdateIsAccepted | internal/application/journal/update.go:34-162 | each refusal of an update has its exact case; what is given replaces what was there, and the rest stays |
| JournalEntries.UpdatedRowIsExact | internal/application/journal/update.go:98-138 | after an update the log has exactly the row that says what the log says, on the Taipei day and in the month of the log |
| JournalEntries.DeletionIsAccepted | internal/application/journal/delete.go:29-73 | a live log is deleted with its row if and only if it has no expense or its month is open |
| JournalEntries.JobCountsAreExact | internal/application/jobs/batch.go:262-284 | for a list of properties without repetitions: closed months are skipped, other properties without an account fail, the rest are processed and their months closed |
| ProfitLoss.Merge | internal/application/billing/reports.go:1207-1234 | the map and the order list hold, after each row, the reference row of every subject seen and the subjects in first-seen order |
| ProfitLoss.NewProfitLossReport | internal/application/billing/reports.go:1203-1272 | the report equals the reference report: one row per distinct key, and the totals over supported rows |
| ProfitLoss.PreviousReportPeriod | internal/application/billing/reports.go:1196-1201 | the compared month is the month before, across the turn of the year |
| ProfitLoss.FirstSeenExact | internal/application/billing/reports.go:1205-1220 | the order list holds every key exactly once |
| ProfitLoss.FirstSeenInOrder | internal/application/billing/reports.go:1205-1220 | subjects appear in the order in which they are first seen |
| ProfitLoss.ReportConservesAmounts | internal/application/billing/reports.go:1203-1272 | the rows of each period sum to the source amounts, and the delta total is the difference of the totals |
| ProfitLoss.TotalsCountSupported | internal/application/billing/reports.go:1203-1282 | the totals are the supported source amounts less exactly those whose key an unsupported row shares |
| ProfitLoss.SeparatorFreeKeysNeverClash | internal/application/billing/reports.go:1274-1282 | nothing is lost when no supported key contains the separator |
| ProfitLoss.QueriedTotalsAreExact | internal/platform/database/billing/repository.go:2278-2411 | on the rows the queries return (title codes not empty and at most 20 characters), the totals are exactly the supported amounts of each month and every fixed subject keeps its own row |
| ProfitLoss.ClashExample | internal/application/billing/reports.go:1274-1282 | the merge by itself drops a supported amount whose key an unsupported row shares |
| ProfitLoss.LegacyOnce | internal/application/billing/reports.go:1237-1309 | every fixed legacy subject heads exactly one row, its own unless a source row has the key |
| ProfitLoss.RowIsExact | internal/application/billing/reports.go:1207-1272 | the row of a subject has code and name of its first source row, the sums of its amounts in either month, their difference, the support of all its rows and the first note of its first or unsupported rows |
| ProfitLoss.KeysAgree | internal/application/billing/reports.go:1274-1282 | supported rows share a subject if and only if they share the code, or without codes the name; unsupported rows without the separator, if and only if code, name and note agree |
| ProfitLoss.LegacyRowIs | internal/application/billing/reports.go:1284-1309 | a fixed row has no amounts, is not supported and says so in its note |

## Left out

- HTTP handlers, roles and property access, identifier parsing, notifications, exports and HTML reports: no rule of the modelled logic depends on them.
- Time zones and times of day in lease dates: a date is a day number; only journal entries convert an instant, to the Taipei day.
- Numbers: prices are exact reals and amounts unbounded integers, so floating-point error and overflow are not modelled.
- The order in which the database lists bills: bills keep the order in which they were created. The boundary test gives the same answer on any order (`Replacement.BoundaryIsExact`), and the other tests are about sets of bills.
- The preview token's digest: the token is the tuple of the digested fields, so two different tuples never share a token.
- Unit prices: they are a parameter of the meter reading and of the checkout.
- Settlement details, move-out date, titles and notes of leases, and the payment ledger rows.
- Termination.RecordDepositAccountingEntries: does not model title codes, dates, notes and source references of the rows, because no modelled rule reads them.
- CheckoutFinalize.RecordCheckout: does not model title codes, dates and source references of the rows, for the same reason.
- CheckoutFinalize.FinalizeCheckout: does not model the lookup of the property account, whose failure rolls the command back.
- Termination.ForceTerminateLease: does not model the progress records of a forced termination and their compensation job, because the write-off takes effect in the same transaction.
- LeaseStore.LeaseDb.Publish: does not model a handler that fails and stops the publication, because the occupancy results are about delivered events.
- Journal.JournalDb.Create: does not model the recorded expense event, because nothing subscribes to it.
- Occupancy between a commit and the delivery of its events, failed deliveries, and commands that interleave: every command's events are delivered before the next command.
- Repairs and room maintenance: no command of the model puts a room into or out of maintenance.
- A deposit accounted for at most once: a forced termination with write-off does not ask whether the deposit is still held, and a replacement carries it over, so the claim is made for settlements and checkouts only.
- Totals and other categories of a monthly snapshot, the monthly cash flow view and the other reports.
