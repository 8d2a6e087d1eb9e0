# merchant-payments: a verified model of the disbursement engine

This project models the core of merchant-payments in Dafny. merchant-payments is a Ruby on Rails
service that pays merchants out of their orders. The model covers the following parts.

- **Disbursement run.** Every eligible merchant gets a calculator chosen by its frequency
  ("daily" or "weekly"). The calculator fetches the merchant's pending orders inside a time
  window, charges a tiered fee on each order and validates the totals. It then stores one
  disbursement whose id is built from the merchant id and the current second. The run
  gathers the successful disbursements and the per-merchant failures. A failure never stops
  the run.
- **Time window.** A daily run covers the previous day only. A weekly run covers the seven
  whole days before the reference date.
- **Minimum monthly fee.** When a merchant's fees for a month fall short of its minimum, the
  tracker stores one adjustment for the difference. It does so at most once per merchant and
  month.
- **Input side.**
  - The record validations of orders, disbursements and adjustments.
  - The merchant and order creators.
  - The CSV validators: header checks and separator detection.
  - The CSV importers, which count imported rows and record the failing ones.
  - The constrained types: UUID, HexId, Email, DisbursementFrequency and PositiveDecimal.

How the model is built:
- Each operation is a pure function in its module.
- Where the source keeps state, a class holds that state. Its methods are proved equal to the
  functions:
  - the disbursement and adjustment tables;
  - the validators' error lists;
  - the importers' counters;
  - the loop of the run.
- Lemmas state what the functions mean.

Representations:
- Amounts are integer cents.
- Fee rates are exact basis points with half-up rounding.
- Instants are whole seconds since 1970-01-01 UTC. Dates are day numbers, and day 0 is a
  Thursday.
- Decimal amounts are an unscaled integer with a scale.
- Strings are sequences of characters.

Collaborators the engine only calls are parameters of the model:
- Database tables are in-memory sequences.
- The merchants table, which orders, disbursements and adjustments must reference
  (`belongs_to :merchant`), is given as the set of its references or ids.
- The current time is a `now` argument.
- The CSV library's parsing of a line, a file and a row is given as functions.
  `CSV.foreach` in the orders importer is given as the rows it yields, followed by the parse
  error that stopped it, if any. A row maps each header to its cell, which is nil where a
  short row has no value.
- The per-row import (record validator plus creator) is a function from a row to the error
  it raises, if any.

## Model

| member | source | states |
|---|---|---|
| Types.PositiveDecimal | lib/domain/shared/types.rb:12-13 | accepts exactly the decimals that are at least 0 and returns them unchanged; otherwise a constraint error |
| Types.UuidAcceptedAsWritten | lib/domain/shared/types.rb:8-10 | every string that is one whole 8-4-4-4-12 UUID, version 4 and variant 8/9/a/b, is accepted by the pattern as written |
| Types.UuidIsOneLine | lib/domain/shared/types.rb:8 | a UUID holds no line break, so it is its own only line |
| Types.UuidGroups | lib/domain/shared/types.rb:8 | splitting a UUID on '-' gives exactly its five hex groups |
| Types.UuidAnchorsAcceptExtraLines | lib/domain/shared/types.rb:8-10 | as written, any text, a line break and a UUID pass the check, although the whole string is not a UUID |
| Types.UuidAnchorsExample | lib/domain/shared/types.rb:8-10 | "not-a-uuid", a newline and a valid UUID pass as written and fail the intended check |
| Types.UuidExamples | spec/lib/domain/shared/types_spec.rb:4-15 | a sample UUID passes; "not-a-uuid", a version-3 UUID and a variant-c UUID fail |
| Types.HexIdExamples | lib/domain/shared/types.rb:17-18 | twelve hex digits in either case pass; shorter, longer and non-hex strings fail |
| Types.EmailParts | lib/domain/shared/types.rb:14 | local@domain is an email exactly when the local part is a non-empty `[\w+.-]` word and the domain is well formed |
| Types.DomainParts | lib/domain/shared/types.rb:14 | a domain is one label, a dot, and then either a shorter domain or an alphabetic final label |
| Types.EmailHasOneAt | lib/domain/shared/types.rb:14 | a valid email has exactly one '@' and is its local part, '@' and its domain |
| Types.EmailExamples | spec/lib/domain/shared/types_spec.rb:44-52 | "user@example.com" is an email |
| Types.NotAnEmailExample | spec/lib/domain/shared/types_spec.rb:44-52 | "not-an-email" is not an email |
| Types.LocalhostIsNotADomain | lib/domain/shared/types.rb:14 | a single label such as "localhost" is not a domain: the pattern needs a dot |
| Types.UserAtLocalhostIsNotAnEmail | spec/lib/domain/shared/types_spec.rb:44-52 | "user@localhost" is not an email |
| Types.FrequencyTypeExamples | lib/domain/shared/types.rb:11 | only "DAILY" and "WEEKLY" pass; "daily", "weekly" and "MONTHLY" fail |
| Types.PositiveDecimalExamples | spec/lib/domain/shared/types_spec.rb:33-42 | 10, 10.5 and 0 pass unchanged; -1 fails |
| Money.FromAmountIsNearest | config/initializers/money.rb:10 | `Money.from_amount(d).cents` is 100·d rounded to the nearest integer, halves away from zero |
| Money.TruncatedIsTowardZero | lib/domain/merchants/services/merchant_creators/api_creator.rb:30 | `(d * 100).to_i` never moves away from zero and drops less than one cent |
| Money.RoundedVersusTruncated | lib/domain/merchants/services/merchant_creators/api_creator.rb:30 | rounding and truncation differ by at most one cent, and rounding is never the nearer to zero |
| Money.FromAmountSign | lib/domain/merchants/services/merchant_creators/base_creator.rb:43 | a non-negative amount gives non-negative cents; negative cents come exactly from amounts at or below -0.005 |
| Money.MoneyExamples | config/initializers/money.rb:10 | 10.00→1000, 100.50→10050, 1.005→101, -1.005→-101, -0.004→0; truncation of 1.999 gives 199 |
| Calendar.WithinDay | lib/domain/disbursements/value_objects/disbursement_window.rb:12-19 | an instant lies between `beginning_of_day` and `end_of_day` of a date exactly when it falls on that date |
| Calendar.DaySpan | lib/domain/disbursements/value_objects/disbursement_window.rb:12-22 | an instant lies between the start of day a and the end of day b exactly when its date is in a..b |
| Calendar.WeekDay | lib/domain/merchants/entities/merchant.rb:38-40 | `wday` is always in 0..6 |
| Calendar.WeekDayPeriodic | lib/domain/disbursements/services/calculators/weekly.rb:17 | the weekday repeats every 7 days |
| Calendar.CivilMonth | lib/domain/fees/repositories/monthly_fee_repository.rb:10 | a month that `Date.new` accepts, -12..-1 counted back from December, names a month in 1..12 |
| Calendar.CivilExamples | lib/domain/fees/repositories/monthly_fee_repository.rb:10-11 | 1970-01-01 is day 0, and 2024-01-01 is day 19723, a Monday |
| Calendar.LeapFebruaryExample | lib/domain/fees/repositories/monthly_fee_repository.rb:10-11 | February 2024 has 29 days and March follows it; month -1 is December |
| DisbursementFrequency.ValidValues | lib/domain/merchants/value_objects/disbursement_frequency.rb:5-10 | VALID_VALUES is each frequency key upcased, in key order |
| DisbursementFrequency.ValuesAreDailyAndWeekly | lib/domain/merchants/value_objects/disbursement_frequency.rb:10-22 | `values` is ["DAILY", "WEEKLY"] |
| DisbursementFrequency.ValidIff | lib/domain/merchants/value_objects/disbursement_frequency.rb:12-14 | `valid?` holds exactly for "DAILY" and "WEEKLY" |
| DisbursementFrequency.ValidityExamples | lib/domain/merchants/value_objects/disbursement_frequency.rb:12-18 | "", "daily", "MONTHLY" and "INVALID" are invalid; "DAILY"→:daily, "WEEKLY"→:weekly |
| DisbursementFrequency.Normalize | lib/domain/merchants/value_objects/disbursement_frequency.rb:16-18 | the result is a symbol whose name is the value lower-cased letter by letter |
| DisbursementFrequency.NormalizeRoundTrip | lib/domain/merchants/value_objects/disbursement_frequency.rb:10-18 | for every valid value, upcasing the normalised symbol's name gives the value back, and the name is a frequency key |
| MerchantEntities.ReadyForDisbursementCases | lib/domain/merchants/entities/merchant.rb:17-40 | :daily is always ready; :weekly is ready exactly on `live_on`'s weekday; anything else, the string "daily" included, never is |
| MerchantEntities.WeeklyReadyEveryWeek | lib/domain/merchants/entities/merchant.rb:19-40 | a weekly merchant is ready on its live day and every whole number of weeks later |
| MerchantEntities.CalculateMonthlyFee | lib/domain/merchants/entities/merchant.rb:23-26 | 0 when the fees reach the minimum, otherwise the fees plus the result make up the minimum; never negative and, for non-negative inputs, never above the minimum |
| MerchantEntities.MonthlyFeeExamples | spec/lib/domain/merchants/entities/merchant_spec.rb:49-65 | with minimum 1000: fees 2000→0, 500→500, 1000→0 |
| FeeCalculator.FindRate | lib/domain/disbursements/services/fee_calculator.rb:18 | `find` yields a rate exactly when some tier holds the amount |
| FeeCalculator.RateOf | lib/domain/disbursements/services/fee_calculator.rb:5-18 | negative amounts match no tier; 0..4999 pay 100 bp; 5000..30000 pay 95 bp, 30000 included; above 30000, 85 bp |
| FeeCalculator.Rate | lib/domain/disbursements/services/fee_calculator.rb:6-8 | the rate of a non-negative amount is one of 100, 95 or 85 bp |
| FeeCalculator.FeeIsRoundedHalfUp | lib/domain/disbursements/services/fee_calculator.rb:19 | the fee is the amount times the rate rounded to the nearest cent, halves up |
| FeeCalculator.FeeBounds | lib/domain/disbursements/services/fee_calculator.rb:6-19 | every fee lies between 0 and the amount |
| FeeCalculator.FeeExamples | spec/lib/domain/disbursements/services/fee_calculator_spec.rb:12-110 | 2000→20, 4999→50, 1→0, 5000→48, 29999→285, 30000→285, 35000→298, 45000→383, 10 000 000→85 000 |
| FeeCalculator.TotalFeesAppend | lib/domain/disbursements/services/fee_calculator.rb:11-12 | the fee of a concatenation is the sum of the parts' fees |
| FeeCalculator.TotalFeesBounds | lib/domain/disbursements/services/fee_calculator.rb:11-19 | summed fees lie between 0 and the summed amounts |
| FeeCalculator.TotalFeesExamples | spec/lib/domain/disbursements/services/fee_calculator_spec.rb:46-88 | [] costs 0; [4000, 6000, 35000]→395; [5000, 3000]→78; [29999, 30000]→570 |
| DisbursementWindow.StartTime | lib/domain/disbursements/value_objects/disbursement_window.rb:15-26 | fails exactly for a frequency other than "daily" and "weekly", with ArgumentError "Unknown frequency: <f>" |
| DisbursementWindow.EndTimeIsLastSecondOfPreviousDay | lib/domain/disbursements/value_objects/disbursement_window.rb:10-13 | for every frequency, `end_time` falls on day d-1 and the next second on day d |
| DisbursementWindow.DailyWindowIsPreviousDay | lib/domain/disbursements/value_objects/disbursement_window.rb:12-19 | an instant is in the daily window exactly when it falls on day d-1 |
| DisbursementWindow.WeeklyWindowIsPreviousSevenDays | lib/domain/disbursements/value_objects/disbursement_window.rb:12-22 | an instant is in the weekly window exactly when it falls on days d-7..d-1 |
| DisbursementWindow.WindowShape | lib/domain/disbursements/value_objects/disbursement_window.rb:12-22 | start ≤ end for both; the daily window lies inside the weekly one; no instant of day d is in either |
| DisbursementWindow.UnknownFrequencyRaises | lib/domain/disbursements/value_objects/disbursement_window.rb:23-24 | "monthly" and "DAILY" raise ArgumentError |
| OrderModel.ValidIff | lib/infrastructure/persistence/active_record/models/order.rb:10-28 | an order is valid exactly when its reference names a merchant of the merchants table and is not blank, its amount is present and above 0, its creation time is present and its currency is "EUR"; "Merchant must exist" is reported exactly when no merchant has the reference |
| OrderModel.ValidationExamples | spec/lib/infrastructure/persistence/active_record/models/order_spec.rb:29-57 | 1 cent in EUR is valid; 0 cents or USD give the listed errors; a missing reference gives "must exist" and "can't be blank"; a missing creation time is invalid; a reference no merchant has gives only "must exist" |
| OrderModel.PendingDisbursementExact | lib/infrastructure/persistence/active_record/models/order.rb:33 | `pending_disbursement` holds exactly the orders whose flag is set |
| OrderModel.InsertByCreation | lib/infrastructure/persistence/active_record/models/order.rb:34 | inserting keeps every order and adds exactly one |
| OrderModel.ByCreation | lib/infrastructure/persistence/active_record/models/order.rb:34 | `by_creation` is a permutation of the orders |
| OrderModel.InsertKeepsSorted | lib/infrastructure/persistence/active_record/models/order.rb:34 | inserting into a list sorted by creation time keeps it sorted |
| OrderModel.ByCreationSorted | lib/infrastructure/persistence/active_record/models/order.rb:34 | `by_creation` is sorted ascending by `created_at` and is a permutation of its input |
| OrderModel.SumAmountsAppend | lib/domain/disbursements/services/calculators/base.rb:45 | the order sum of a concatenation is the sum of the parts' sums |
| PendingOrdersQuery.FindPendingForMerchant | lib/domain/disbursements/queries/pending_orders_query.rb:13-17 | the query returns no more orders than the table holds |
| PendingOrdersQuery.FindPendingExact | lib/domain/disbursements/queries/pending_orders_query.rb:13-17 | an order is returned exactly when it is in the table, has the merchant's reference, is pending and was created between start and end |
| PendingOrdersQuery.CallExact | lib/domain/disbursements/queries/pending_orders_query.rb:10-17 | fails exactly when the merchant's frequency is unknown, with the window's ArgumentError; otherwise returns exactly the merchant's pending orders in the window for its own frequency |
| PendingOrdersQuery.DailyExamples | spec/lib/domain/disbursements/queries/pending_orders_query_spec.rb:124-144 | daily: an order at the first second of d-1 is returned; one from d-2 and a disbursed one are not |
| PendingOrdersQuery.WeeklyExamples | spec/lib/domain/disbursements/queries/pending_orders_query_spec.rb:92-118 | weekly: an order from d-5 is returned; orders from d-8 and from d itself are not |
| DisbursementValidator.ValidIff | lib/domain/disbursements/data/validator.rb:9-40 | `valid?` holds exactly when the merchant id and orders are present, both amounts are present and ≥ 0, fees ≤ amount, and the amount equals the order sum |
| DisbursementValidator.MissingFieldReportsOnlyItsOwnRules | lib/domain/disbursements/data/validator.rb:10-34 | a missing amount reports "can't be blank" and skips the fee comparison and the sum check |
| DisbursementValidator.ValidatorExamples | spec/lib/domain/disbursements/data/validator_spec.rb:38-131 | with orders of 1000 and 2000: amount 3000 passes with fees 30 or 3000; fees 3001, amount 5000, amount -1000 and no orders give exactly the listed errors |
| DisbursementValidator.BlankAndZeroExamples | spec/lib/domain/disbursements/data/validator_spec.rb:38-131 | zero amounts with one 0-cent order pass; a missing merchant id, amount or orders and a blank id are each reported, with negative fees |
| DisbursementValidator.Validator.constructor | lib/domain/disbursements/data/validator.rb:16-21 | the validator keeps the attributes and starts with no errors |
| DisbursementValidator.Validator.Valid | lib/domain/disbursements/data/validator.rb:9-40 | `valid?` leaves exactly the violated rules in `errors`, in declaration order, and answers whether there were none |
| DisbursementModel.RecordErrors | lib/infrastructure/persistence/active_record/models/disbursement.rb:23-24 | no errors exactly when amount and fees are both above 0; each field is reported exactly when it is not |
| DisbursementModel.FullMessages | lib/domain/disbursements/services/calculators/base.rb:37 | one full message per error: the humanised attribute, a space and the message |
| DisbursementModel.RecordErrorsExamples | spec/lib/infrastructure/persistence/active_record/models/disbursement_spec.rb:64-74 | (10000, 100) is valid; a zero amount, zero fees, or both are reported on their fields |
| DisbursementModel.ValidationFailedSingle | lib/infrastructure/persistence/active_record/models/disbursement.rb:23-24 | with one failed rule, RecordInvalid's message is "Validation failed: " and that rule's full message |
| DisbursementModel.ValidationFailedPair | lib/infrastructure/persistence/active_record/models/disbursement.rb:23-24 | with two failed rules, the message joins their full messages with ", " in order |
| DisbursementModel.DisbursementIdLayout | lib/infrastructure/persistence/active_record/concerns/has_disbursement_uuid.rb:14-16 | the id starts with "DISB-", holds the merchant id right after it, then '-' and the decimal seconds |
| DisbursementModel.DisbursementIdInjective | lib/infrastructure/persistence/active_record/concerns/has_disbursement_uuid.rb:15 | for one merchant, two ids are equal exactly when the seconds are equal |
| DisbursementModel.DisbursementIdSplit | lib/infrastructure/persistence/active_record/concerns/has_disbursement_uuid.rb:15 | for a UUID merchant id, splitting the id on '-' gives "DISB", the five UUID groups and an all-digit timestamp |
| DisbursementModel.DisbursementRow.constructor | lib/infrastructure/persistence/active_record/models/disbursement.rb:5 | a new record holds the given attributes and the pre-set id |
| DisbursementModel.DisbursementRow.GenerateDisbursementUuid | lib/infrastructure/persistence/active_record/concerns/has_disbursement_uuid.rb:9-16 | the callback overwrites any pre-set id with the DISB id of the merchant and the second |
| DisbursementModel.ForYearExact | lib/infrastructure/persistence/active_record/models/disbursement.rb:29 | `for_year` keeps exactly the rows created in that year |
| DisbursementModel.ForYearAppend | lib/infrastructure/persistence/active_record/models/disbursement.rb:29 | appending a row extends `for_year` by that row exactly when it is in the year |
| DisbursementModel.SumsAppend | lib/infrastructure/persistence/active_record/models/disbursement.rb:30-31 | amount and fee sums are additive over concatenation |
| DisbursementModel.YearSumsAppend | lib/infrastructure/persistence/active_record/models/disbursement.rb:29-31 | appending a row adds its amounts to its own year's sums and to no other year |
| DisbursementModel.YearSumsPositive | lib/infrastructure/persistence/active_record/models/disbursement.rb:23-31 | over valid rows, each yearly sum is at least the number of that year's rows |
| DisbursementModel.CreateErrors | lib/infrastructure/persistence/active_record/models/disbursement.rb:16-24 | no errors exactly when the merchant id is in the merchants table and both amounts are positive; "must exist" on merchant exactly when the merchant is unknown |
| DisbursementModel.StoreCreateOutcome | lib/infrastructure/persistence/active_record/models/disbursement.rb:16-24 | create either fails and leaves the table alone, or appends exactly the new row with the DISB id; it succeeds exactly when the merchant id is in the merchants table, both amounts are positive and the id is free; an unknown merchant or non-positive amounts give RecordInvalid with "Merchant must exist" first |
| DisbursementModel.StoreCreatePreserves | lib/infrastructure/persistence/active_record/models/disbursement.rb:16-24 | ids stay unique and every stored row passes the validations |
| DisbursementModel.DisbursementStore.constructor | lib/infrastructure/persistence/active_record/models/disbursement.rb:5-17 | the table starts empty and valid, over the given merchant ids |
| DisbursementModel.DisbursementStore.Create | lib/infrastructure/persistence/active_record/models/disbursement.rb:16-24 | the result and the new table are those of StoreCreate on the old table; the table invariant is kept |
| Calculators.FetchOrdersMeaning | lib/domain/disbursements/services/calculators/weekly.rb:8-18 | Base raises NotImplementedError "<class> must implement #fetch_orders"; Weekly fetches nothing off its weekday; otherwise the fetched orders are exactly the merchant's pending orders in its window, and an unknown frequency is the only error |
| Calculators.FetchedFromTable | lib/domain/disbursements/services/calculators/daily.rb:8-10 | whatever a calculator fetches comes from the order table |
| Calculators.BuiltAttributesValid | lib/domain/disbursements/services/calculators/base.rb:42-50 | the built attributes pass the validator exactly when there are orders and the merchant id is not blank |
| Calculators.NoOrdersNoDisbursement | lib/domain/disbursements/services/calculators/base.rb:15-17 | nothing fetched: nil, and the table is untouched |
| Calculators.WeeklyMismatchDoesNothing | lib/domain/disbursements/services/calculators/weekly.rb:9-18 | a weekday mismatch returns nil without touching the table |
| Calculators.CalculateAndCreateOutcome | lib/domain/disbursements/services/calculators/base.rb:14-50 | the table is unchanged or grows by exactly one row: the merchant's id, which the merchants table holds, the order sum, the summed fees and the DISB id; nil or an error otherwise |
| Calculators.ValidationFailureSwallowed | lib/domain/disbursements/services/calculators/base.rb:20-37 | a blank merchant id fails validation; nil comes back and nothing is stored |
| Calculators.ErrorsPropagate | lib/domain/disbursements/services/calculators/base.rb:15-39 | fetch errors and store errors come back unchanged |
| Calculators.ZeroFeeBatchFailsAtCreate | lib/domain/disbursements/services/calculators/base.rb:36-39 | for a merchant of the merchants table, one 1-cent order passes the validator but create fails with RecordInvalid on `fees_amount_cents` |
| Calculators.ConcreteErrorsAreStandard | lib/domain/disbursements/services/calculators/daily.rb:8-10 | Daily and Weekly only ever fail with standard errors |
| Calculators.BaseRaises | lib/domain/disbursements/services/calculators/base.rb:27-29 | Base's `calculate_and_create` raises NotImplementedError, which is not rescued, and stores nothing |
| Calculators.CalculatorService.constructor | lib/domain/disbursements/services/calculators/base.rb:6-12 | the calculator keeps its merchant, date and repository |
| Calculators.CalculatorService.CalculateAndCreate | lib/domain/disbursements/services/calculators/base.rb:14-40 | result and new table are those of CalculateAndCreateSpec; the table invariant is kept |
| FrequencyFactory.CreateCases | lib/domain/disbursements/factories/frequency_based_factory.rb:5-15 | "daily"→Daily, "weekly"→Weekly with the same merchant and date; it fails exactly for any other key, with InvalidFrequencyError "Unknown frequency: <f>"; it never builds Base |
| FrequencyFactory.CreateExamples | lib/domain/disbursements/factories/frequency_based_factory.rb:11-12 | "DAILY" and "monthly" are unknown |
| DisbursementCalculator.StepNeverRaises | lib/domain/disbursements/services/disbursement_calculator.rb:30-39 | one merchant's processing never raises out of the run |
| DisbursementCalculator.StepOutcome | lib/domain/disbursements/services/disbursement_calculator.rb:30-39 | a step adds its disbursement's row to the table, or adds nothing; it fails exactly when the factory or the calculator raised, rolls back, and reports the merchant id with that error's message |
| DisbursementCalculator.RunAllOutcome | lib/domain/disbursements/services/disbursement_calculator.rb:11-47 | the run never raises; \|successful\| + \|failed\| ≤ merchants; the table grows by exactly the successful rows; every entry names one of the merchants |
| DisbursementCalculator.RunAllMonotone | lib/domain/disbursements/services/disbursement_calculator.rb:14-37 | the results for a prefix of the merchants are prefixes of the whole run's: a later failure removes nothing |
| DisbursementCalculator.UnknownFrequencyFails | lib/domain/disbursements/services/disbursement_calculator.rb:36-60 | a merchant with an unknown frequency lands in `failed` with the factory's message |
| DisbursementCalculator.WeeklyOffDayAddsNothing | lib/domain/disbursements/services/disbursement_calculator.rb:34 | a weekly merchant on the wrong weekday adds nothing to either list or the table |
| DisbursementCalculator.DisbursementCalculatorService.constructor | lib/domain/disbursements/services/disbursement_calculator.rb:5-9 | the run keeps its date and repository |
| DisbursementCalculator.DisbursementCalculatorService.ProcessMerchant | lib/domain/disbursements/services/disbursement_calculator.rb:30-39 | step and new table are those of MerchantStep, with rollback on error |
| DisbursementCalculator.DisbursementCalculatorService.CreateDisbursements | lib/domain/disbursements/services/disbursement_calculator.rb:11-19 | the loop's results and table are those of RunAll over all merchants |
| MonthlyFeeAdjustments.ValidIff | lib/infrastructure/persistence/active_record/models/monthly_fee_adjustment.rb:14-23 | no errors exactly when the merchant id is present and in the merchants table, the amount is above 0, the month is in 1..12, the year is present and the key is new |
| MonthlyFeeAdjustments.DuplicateReported | lib/infrastructure/persistence/active_record/models/monthly_fee_adjustment.rb:18-23 | "already has an adjustment…", "must be greater than 0", "must be less than or equal to 12" "must exist" and "can't be blank" on merchant are reported exactly in their cases; both merchant messages fire for a nil id and for an id no merchant has |
| MonthlyFeeAdjustments.UnknownMerchantMessage | lib/infrastructure/persistence/active_record/models/monthly_fee_adjustment.rb:14-21 | an id no merchant has fails with "Validation failed: Merchant must exist, Merchant can't be blank" and adds no row |
| MonthlyFeeAdjustments.InsertOutcome | lib/infrastructure/persistence/active_record/models/monthly_fee_adjustment.rb:17-23 | `create!` appends exactly the given row when acceptable and otherwise raises RecordInvalid and changes nothing; keys stay unique and rows valid |
| MonthlyFeeAdjustments.ScopesExact | lib/infrastructure/persistence/active_record/models/monthly_fee_adjustment.rb:28-29 | `for_month_and_year` and `for_year` keep exactly the matching rows |
| MonthlyFeeAdjustments.EmptyYear | lib/infrastructure/persistence/active_record/models/monthly_fee_adjustment.rb:30-31 | no row in the year: total and count are both 0 |
| MonthlyFeeAdjustments.TotalAtLeastCount | lib/infrastructure/persistence/active_record/models/monthly_fee_adjustment.rb:18-31 | over valid rows the year's total is at least its count, and it is 0 exactly when the count is |
| MonthlyFeeAdjustments.AtMostOnePerKey | db/migrate/20250125185912_create_monthly_fee_adjustments.rb:10-11 | with the unique index, one key has at most one row |
| MonthlyFeeAdjustments.ScopeExamples | spec/lib/infrastructure/persistence/active_record/models/monthly_fee_adjustment_spec.rb:84-149 | 1000 (1/2024), 2000 (2/2024) and 3000 (1/2025) give the spec's scope results, totals and counts |
| MonthlyFeeAdjustments.ValidationExamples | spec/lib/infrastructure/persistence/active_record/models/monthly_fee_adjustment_spec.rb:26-67 | the defaults are valid; missing or negative amounts, a missing or 13th month, a missing year, an unknown merchant and a duplicate are refused |
| MonthlyFeeRepository.TotalFeesForMonthMeaning | lib/domain/fees/repositories/monthly_fee_repository.rb:9-17 | the (corrected) month total fails exactly for a month `Date.new` refuses; otherwise it is the sum of this merchant's fees created on any day of that month |
| MonthlyFeeRepository.OnlyOwnFees | lib/domain/fees/repositories/monthly_fee_repository.rb:14-16 | with no disbursement of this merchant in range, the sum is 0 |
| MonthlyFeeRepository.FeesBetweenAppend | lib/domain/fees/repositories/monthly_fee_repository.rb:13-16 | appending a disbursement adds its fees exactly when it is this merchant's and inside the range |
| MonthlyFeeRepository.MonthTotalExample | spec/lib/domain/disbursements/repositories/monthly_fee_repository_spec.rb:20-60 | fees of 1000 and 500 in the month and 300 in the next give 1500; no disbursements give 0 |
| MonthlyFeeRepository.LastDayExcludedAsWritten | lib/domain/fees/repositories/monthly_fee_repository.rb:10-15 | a disbursement at noon on the last day counts 0 as written and its fees after the correction |
| MonthlyFeeRepository.ExistsIffDuplicate | lib/domain/fees/repositories/monthly_fee_repository.rb:28-31 | `adjustment_exists?` holds exactly when the uniqueness rule would refuse a new adjustment for the key |
| MonthlyFeeRepository.ExistsAfterCreate | lib/domain/fees/repositories/monthly_fee_repository.rb:19-31 | after a successful create, `adjustment_exists?` is true for its key and unchanged for every other key |
| MonthlyFeeRepository.MonthlyFeeStore.constructor | lib/domain/fees/repositories/monthly_fee_repository.rb:4-6 | the store holds the given disbursements and merchant ids and no adjustments |
| MonthlyFeeRepository.MonthlyFeeStore.CreateMonthlyAdjustment | lib/domain/fees/repositories/monthly_fee_repository.rb:19-26 | result and new adjustments are those of Insert with the given merchant, amount, month and year; disbursements unchanged |
| MonthlyFeeTracker.AgreesWithMerchantFee | lib/domain/fees/services/monthly_fee_tracker.rb:12-16 | a created adjustment's amount is the merchant entity's `calculate_monthly_fee` of the month total, and nothing is created exactly when that fee is 0 |
| MonthlyFeeTracker.ExistingAdjustmentStops | lib/domain/fees/services/monthly_fee_tracker.rb:10 | an existing adjustment returns nil, changes nothing and does not depend on the fees |
| MonthlyFeeTracker.ProcessMerchantOutcome | lib/domain/fees/services/monthly_fee_tracker.rb:9-31 | at most one adjustment is added, for this merchant, month and year, with amount minimum − total > 0; all other rows stay as they were |
| MonthlyFeeTracker.ProcessMerchantIdempotent | lib/domain/fees/services/monthly_fee_tracker.rb:10-16 | processing the same key twice leaves the adjustments as one call does |
| MonthlyFeeTracker.TrackerExamples | spec/lib/domain/disbursements/services/monthly_fee_tracker_spec.rb:31-58 | minimum 2900 and fees 1500 create one adjustment of 1400; fees 3000 create none |
| MonthlyFeeTracker.Tracker.constructor | lib/domain/fees/services/monthly_fee_tracker.rb:5-7 | the tracker keeps its repository |
| MonthlyFeeTracker.Tracker.ProcessMerchant | lib/domain/fees/services/monthly_fee_tracker.rb:9-17 | result and new adjustments are those of ProcessMerchantSpec; disbursements unchanged |
| MerchantCreators.CallCases | lib/domain/merchants/services/merchant_creators/base_creator.rb:8-45 | BaseCreator raises NotImplementedError "…BaseCreator is an abstract class"; a subclass raises InvalidDisbursementFrequency first, then InvalidMinimumMonthlyFee for negative cents; otherwise the repository receives the normalised data |
| MerchantCreators.NormalizedData | lib/domain/merchants/services/merchant_creators/base_creator.rb:47-56 | id, reference, email and live_on pass through; the frequency becomes :daily or :weekly; the fee becomes its rounded cents |
| MerchantCreators.FeeValidationExamples | spec/lib/domain/merchants/services/merchant_creators/base_creator_spec.rb:63-101 | 0 and -0.004 pass, -0.01 is refused; 10.00 gives 1000 cents |
| MerchantCreators.ApiCallMeaning | lib/domain/merchants/services/merchant_creators/api_creator.rb:15-33 | ApiCreator skips validation and creates the base normalisation with truncated cents, which differ from the rounded ones by at most one cent |
| MerchantCreators.RoundingDiffersFromApi | lib/domain/merchants/services/merchant_creators/api_creator.rb:30 | 10.999 becomes 1100 cents in BaseCreator and 1099 in ApiCreator |
| OrderCreators.CallCases | lib/domain/orders/services/order_creators/base_creator.rb:7-43 | BaseCreator raises NotImplementedError; a subclass raises InvalidMinimumAmount exactly for negative cents; otherwise the repository receives the normalised data |
| OrderCreators.NormalizedData | lib/domain/orders/services/order_creators/base_creator.rb:45-53 | "EUR", the id (nil included), reference and creation time pass through; the amount becomes its rounded cents; the data passes the Order validations exactly when the reference names a merchant and is not blank, the time is present and the cents are positive, so a zero amount passes the creator but not the record |
| OrderCreators.NormalizeExamples | spec/lib/domain/orders/services/order_creators/base_creator_spec.rb:46-111 | 100.50 gives 10050 cents; -1.00 is refused |
| CsvFiles.LowerAll | lib/domain/orders/services/csv_validator.rb:43 | `headers.map(&:downcase)` lower-cases each header, keeping order |
| CsvFiles.MinusExact | lib/domain/orders/services/csv_validator.rb:44 | `a - b` keeps exactly the elements of a that are not in b, in order |
| CsvFiles.HeadersMissingIff | lib/domain/merchants/services/csv_validator.rb:41-45 | the missing-header message is added exactly when some required header, ignoring case, is absent |
| OrdersCsvValidator.FirstSeparatorMeaning | lib/domain/orders/services/csv_validator.rb:48-57 | the detected separator is the first candidate splitting the first line into more than one field; none exactly when no candidate does |
| OrdersCsvValidator.ValidateMeaning | lib/domain/orders/services/csv_validator.rb:17-68 | valid with no errors exactly when the file has content, a separator is found, the file reads and no header is missing; the separator is the first qualifying candidate; once headers are read the errors are exactly the header errors |
| OrdersCsvValidator.EarlyAnswers | lib/domain/orders/services/csv_validator.rb:18-56 | a missing file, an empty file and an unsplittable first line give their messages and no separator |
| OrdersCsvValidator.SemicolonChosen | lib/domain/orders/services/csv_validator.rb:51-54 | when "," gives one field and ";" several, ";" is chosen |
| OrdersCsvValidator.Validator.constructor | lib/domain/orders/services/csv_validator.rb:12-15 | the validator keeps the path and starts with no errors |
| OrdersCsvValidator.Validator.DetectSeparator | lib/domain/orders/services/csv_validator.rb:48-57 | the loop with early return gives FirstSeparator |
| OrdersCsvValidator.Validator.Call | lib/domain/orders/services/csv_validator.rb:17-36 | the result is Validate's, and `@errors` holds the appended errors |
| MerchantsCsvValidator.ThirdCandidateIsNotTab | lib/domain/merchants/services/csv_validator.rb:6 | the third candidate is the two characters backslash and 't', and a tab is not a candidate |
| MerchantsCsvValidator.MaxByIndex | lib/domain/merchants/services/csv_validator.rb:49 | `max_by` picks an index of the candidates |
| MerchantsCsvValidator.MaxByIndexMeaning | lib/domain/merchants/services/csv_validator.rb:49 | the picked candidate's count is the largest, and every earlier candidate counts strictly less |
| MerchantsCsvValidator.ValidateMeaning | lib/domain/merchants/services/csv_validator.rb:17-58 | only an empty file raises; valid with no errors exactly when the file is there, reads and has every required header; the separator is always a candidate, so its check never fires |
| MerchantsCsvValidator.SeparatorExamples | lib/domain/merchants/services/csv_validator.rb:49 | no candidate present falls back to ","; a tie between "," and ";" goes to ","; ";" wins when most frequent |
| MerchantsCsvValidator.Validator.constructor | lib/domain/merchants/services/csv_validator.rb:12-15 | the validator keeps the path and starts with no errors |
| MerchantsCsvValidator.Validator.Call | lib/domain/merchants/services/csv_validator.rb:17-35 | the result is Validate's, and `@errors` holds the appended errors |
| OrdersCsvImporter.ImportRowsAppend | lib/domain/orders/services/importers/csv_importer.rb:31-44 | importing a + b is importing a and then b; a raised error stops the rest |
| OrdersCsvImporter.ImportRowsMeaning | lib/domain/orders/services/importers/csv_importer.rb:71-99 | no error escapes exactly when every row imports or raises a standard error; then failures are the failing rows in order with id, message and data, and imported + failed = rows |
| OrdersCsvImporter.CallMeaning | lib/domain/orders/services/importers/csv_importer.rb:20-60 | an invalid file gives its errors joined by ", "; a header-only file gives zero counts; a success means the file read to the end, imported + failed = rows and the failures are the failing rows; a malformed line gives its parse message exactly when no non-standard error escaped from the full batches read before it |
| OrdersCsvImporter.FullBatchPrefix | lib/domain/orders/services/importers/csv_importer.rb:31-40 | the rows of the full batches among the first n: a multiple of 1000, at most n and less than one batch short of it |
| OrdersCsvImporter.MalformedEarlyImportsNothing | lib/domain/orders/services/importers/csv_importer.rb:34-44 | a malformed line before the 1000th row means no row is handed over and the parse message comes back; from the 1000th row on, the first batch has been handed over |
| OrdersCsvImporter.FailingRowDoesNotStop | lib/domain/orders/services/importers/csv_importer.rb:75-81 | a failing first row is recorded and the second row is still imported |
| OrdersCsvImporter.Importer.constructor | lib/domain/orders/services/importers/csv_importer.rb:14-18 | counters start at 0 and no failures |
| OrdersCsvImporter.Importer.ProcessBatch | lib/domain/orders/services/importers/csv_importer.rb:111-117 | the batch loop's counters are those of ImportRows on the batch, or the escaping error is returned |
| OrdersCsvImporter.Importer.ReadBatches | lib/domain/orders/services/importers/csv_importer.rb:31-41 | every full batch of 1000 is processed as it fills; the counters are those of importing the full batches, the rest is returned as the partial batch, or the escaping error is returned |
| OrdersCsvImporter.Importer.Call | lib/domain/orders/services/importers/csv_importer.rb:20-60 | the full batches, then the partial batch only when the file read to the end, give exactly ImportCsv's result; the counters are those of the processed rows, a malformed line included |
| MerchantsCsvImporter.ExpectedFailures | lib/domain/merchants/services/importers/csv_importer.rb:34-96 | no more failures than rows |
| MerchantsCsvImporter.FailuresReportTheirRows | lib/domain/merchants/services/importers/csv_importer.rb:34-96 | each failure names its row's line, REFERENCE, message and data, and that row raised |
| MerchantsCsvImporter.FailuresInLineOrder | lib/domain/merchants/services/importers/csv_importer.rb:34 | failure lines strictly increase and start no earlier than the first row's line |
| MerchantsCsvImporter.FailingRowsReported | lib/domain/merchants/services/importers/csv_importer.rb:34-78 | every failing row has a failure on its line |
| MerchantsCsvImporter.ImportRowsMeaning | lib/domain/merchants/services/importers/csv_importer.rb:34-78 | no error escapes exactly when every row imports or raises a standard error; then imported + failed = rows |
| MerchantsCsvImporter.CallMeaning | lib/domain/merchants/services/importers/csv_importer.rb:21-55 | an invalid file returns its error list; header-only gives zero counts; otherwise imported + failed = rows and the failures are exactly the failing rows, in line order from line 2 |
| MerchantsCsvImporter.SecondRowFailsAtLine3 | lib/domain/merchants/services/importers/csv_importer.rb:34 | the second data row failing is reported at line 3 |
| MerchantsCsvImporter.Importer.constructor | lib/domain/merchants/services/importers/csv_importer.rb:15-19 | counters start at 0 and no failures |
| MerchantsCsvImporter.Importer.Call | lib/domain/merchants/services/importers/csv_importer.rb:21-48 | the row loop numbered from line 2 gives exactly ImportCsv's result |

## Left out

- HTTP controllers, presenters, routes, the scheduler, jobs and rake tasks: plumbing around the
  core.
- File and CSV I/O: these library calls are parameters of the model.
  - `File.exist?`, `File.zero?` and `readline`.
  - `CSV.parse_line`, `CSV.read` and `CSV.foreach`.
  - The merchants importer receives the validator's result and the parsed rows as
    independent arguments. In the code the validator's `CSV.read` (merchants
    csv_validator.rb:24, rescued at line 33) has already parsed the whole file, so a malformed
    file ends as "Invalid CSV format: …". The importer's `Failed(message)` branch after a
    valid result is only reachable if the file changes between the two reads.
  - `String#count` for the merchants separator candidates.
- The orders importer's failure line number, computed from Ruby's `$.`: the failure record
  keeps the id, message and row data only.
- Logging, and the backtrace in the run's failure records.
- `ActiveRecord::Base.transaction`:
  - A failed merchant's disbursement is modelled as rolled back.
  - The importers' transactions are not modelled: imported rows stay imported.
- Marking orders as disbursed (`mark_as_disbursed`) and the order association of a
  disbursement. They are referenced but not defined in the modelled files, so the pending
  flags of orders are not changed by a run.
- `DisbursableMerchantsQuery` and `fetch_eligible_merchants_in_batches`: the run takes the
  eligible merchants as a sequence.
- The repositories (`DisbursementRepository`, `MerchantRepository`, `OrderRepository`): they
  are in-memory tables or `create` parameters.
- The record validators behind the importers (`process_row`) and the merchants `CsvCreator`,
  which references constants that do not exist: both are the abstract per-row import.
- Money objects: amounts are integer cents. Floating-point fee rates are exact basis points,
  which agree with every listed example.
- The persistence model `models/merchant.rb`, whose enum mapping contradicts the value object,
  is not part of this model.
- `HasUuid`/`HasHexUuid` random ids are not part of this model.
- Date parsing: dates are day numbers.
- Unicode: case mapping covers ASCII letters only. Blankness follows Ruby's Unicode
  `[[:space:]]` class, so U+00A0 and U+3000 count as blank.
- MonthlyFeeTracker.ProcessMerchantSpec: reads the month's fees with the corrected
  `MonthlyFeeRepository.TotalFeesForMonth`, which counts the whole last day of the month. The
  code as written stops at midnight at the start of that day (second row of "## Findings"),
  so the tracker's lemmas describe the intended tracker, not the written one.
- A nil header cell, which would make `downcase` raise NoMethodError, is not modelled: headers
  are strings.
- MonthlyFeeAdjustments.YearRule: the `only_integer` checks are vacuous on the model's integer
  month and year.
- DisbursementCalculator.RunAllOutcome: one `now` serves the whole run, where the code reads
  the clock again for every merchant.
- Calculators.CalculateAndCreateSpec, Calculators.StoreAttributes and
  DisbursementModel.StoreCreate: one `now` gives `disbursed_at`, the seconds in the DISB id
  and `created_at`. The code reads the clock separately for each of them: `Time.current.utc`
  in base.rb:48, `Time.current.to_i` in has_disbursement_uuid.rb:15, and the Rails timestamp
  on create. So their seconds can differ in the code. No lemma depends on them being equal.
- The money-rails validations that `monetize :amount_cents` adds (order.rb:13,
  monthly_fee_adjustment.rb:11): the subunit numericality check and the money validator run
  before the association rule. With a nil amount they would report "is not a number" on
  `amount_cents` and on `amount` ahead of the errors the model lists. Validity is unchanged,
  and no modelled path builds a nil amount.
- Types.PositiveDecimal: the error message of the constraint error is the model's own
  wording; dry-types builds its own ConstraintError text, which is not modelled.
- The orders importer's `Errno::ENOENT` rescue: the validator reports a missing file first.

## Code and specification

Where the written specification and the code differ, the model follows the code.

- The fee tier of exactly 30000 cents: the specification gives it 0.85 %. The code lists
  `5000..30000` first, so it is charged 0.95 %.
- The specification has a disbursement flip its orders' pending flags. The code calls a
  method that is not defined in the modelled files.
- Two older window tests expect the current day or a six-day week inside the window. The
  window code excludes the current day and spans seven days, and the model follows it.
- For a month with no disbursements, one repository test expects nil and the other 0. The
  code's `sum` yields 0.
- An empty merchants CSV file: the validator test (spec/lib/domain/merchants/services/csv_validator_spec.rb:116-127)
  expects `valid: false` with the error "CSV file is empty". The code raises ArgumentError
  instead, which `MerchantsCsvValidator.ValidateMeaning` states.
- A tab-separated merchants file: the validator test (spec/lib/domain/merchants/services/csv_validator_spec.rb:61-84)
  expects the tab to be detected as separator. The code's third candidate `'\t'` is the two
  characters backslash and `t`, not a tab, as `MerchantsCsvValidator.ThirdCandidateIsNotTab`
  states.

## Findings

| source | as written | input that shows it | evidently intended | confidence | as-written member | corrected member |
|---|---|---|---|---|---|---|
| lib/domain/shared/types.rb:8 | UUID_REGEX is anchored with `^` and `$`, which match at line boundaries | "not-a-uuid\n" followed by a valid UUID is accepted | the whole string is one UUID (`\A` … `\z`, as HEX_ID_REGEX does) | not executed | Types.UuidAnchorsAcceptExtraLines | Types.UuidAcceptedAsWritten |
| lib/domain/fees/repositories/monthly_fee_repository.rb:10-15 | the `created_at` range runs from the first to the last *date* of the month, so it stops at midnight at the start of the last day | a disbursement created at 12:00 on the month's last day is not counted | every disbursement created during the calendar month counts | not executed | MonthlyFeeRepository.LastDayExcludedAsWritten | MonthlyFeeRepository.TotalFeesForMonthMeaning |

For the first finding, `Types.IsUuid` is the intended check. `Types.UuidAcceptedAsWritten`
proves the two checks agree on every real UUID. `Types.UuidGroups` proves the group layout,
which the disbursement id lemmas use.

For the second, `MonthlyFeeRepository.TotalFeesForMonthAsWritten` is the code as written.
`MonthlyFeeRepository.TotalFeesForMonth` covers the month up to its last second, and the
tracker uses it.
