# Workshop management: business rules in Dafny

This project models the business rules of a workshop-management application:

- the vacation-balance calculator and the route that feeds it;
- the salary-advance rules (pay-period windows, overlapping advances, the
  available amount, the validation chain before an insert);
- the two running-total ledgers: job advances, and invoice payments with the
  derived payment status;
- invoice reconciliation and the batch-pay input check;
- the camelCase/snake_case key converter;
- the client-side logic of three components: the data-table filter and
  selection, the batch-payment dialog and the invoice-template zone editor.

Each module follows one source file:

| module | file |
|---|---|
| `VacationBalance` | `backend/src/services/vacation-balance.service.ts` |
| `WorkerVacationRoutes` | `backend/src/routes/worker-vacation.routes.ts` |
| `SalaryAdvances` | `backend/src/repositories/salary-advance.repository.ts` |
| `JobAdvances` | `backend/src/repositories/advance.repository.ts` |
| `InvoicePayments` | `backend/src/repositories/invoice-payment.repository.ts` |
| `InvoiceRoutes` | `backend/src/routes/invoice.routes.ts` |
| `CaseConverter` | `backend/src/utils/case-converter.ts` |
| `DataTable` | `frontend/src/app/shared/components/data-table/data-table.component.ts` |
| `BatchPaymentDialog` | `frontend/src/app/invoices/batch-payment-dialog/batch-payment-dialog.component.ts` |
| `TemplateEditor` | `frontend/src/app/suppliers/template-editor/template-editor.component.ts` |

Three support modules hold shared definitions:

- `Seqs`: Option, Result, filter, map, sum, set toggle and find-index, with their lemmas.
- `Calendar`: dates, day numbers, weekdays, and day-start/day-end millisecond instants.
- `JsStrings`: the JavaScript string operations the source uses. These are
  `trim`, `toLowerCase` (restricted to the Latin capitals), `includes` and `String(number)`.

How the source is represented:

- Pure computations are Dafny functions.
- The repositories are classes. Their tables are `map`/`seq` fields, and their
  `Create`/`Delete` methods state the whole new state.
- The Angular components are classes whose methods update the component's fields.
- An asynchronous service call is split in two. The method that issues the
  request returns it. A separate method applies the reply, or the error.
- Money is `int` (cents).
- Dates are year/month/day triples, day numbers, or millisecond instants counted
  from 1970-01-01 local time.
- The current time is a parameter.

## Model

| member | source | states |
|---|---|---|
| VacationBalance.CalculateMonthsWorked | backend/src/services/vacation-balance.service.ts:21-37 | months worked is never negative, and n ≥ 1 complete months have passed iff the n-th monthly anniversary (same day of month, compared month first, then day) has been reached |
| VacationBalance.AccruedDaysCountCompleteMonths | backend/src/services/vacation-balance.service.ts:43-45 | accrued days are exactly one per complete month: n ≤ accrued iff the n-th anniversary is reached |
| VacationBalance.FutureHireDateGivesZero | backend/src/services/vacation-balance.service.ts:36 | a hire date after `now` gives 0 months |
| VacationBalance.HiredJanuaryThirtyFirst | backend/src/services/vacation-balance.service.ts:25-34 | hired 31 January, evaluated 1 March gives 1 month; evaluated 28 February gives 0 |
| VacationBalance.DaysOfAppend | backend/src/services/vacation-balance.service.ts:50-59 | used and pending days of an empty list are 0, and each appended vacation adds its totalDays |
| VacationBalance.GetVacationBalance | backend/src/services/vacation-balance.service.ts:64-85 | the record echoes workerId and hireDate; accrued equals months worked; used and pending are the list sums; available = accrued − used − pending, unclamped |
| VacationBalance.AddingVacationLowersAvailable | backend/src/services/vacation-balance.service.ts:50-74 | adding a vacation of d days to either list lowers availableDays by exactly d |
| VacationBalance.CanRequestVacation | backend/src/services/vacation-balance.service.ts:90-92 | a request is allowed iff requestedDays ≤ availableDays (equality allowed) |
| VacationBalance.CanRequestIffWithinAccrual | backend/src/services/vacation-balance.service.ts:64-92 | a request passes iff used + pending + requested ≤ accrued, i.e. iff adding it as pending leaves availableDays ≥ 0 |
| VacationBalance.FiveMonthsScenario | backend/src/services/vacation-balance.service.ts:64-85 | five months worked, 2 used and 1 pending day leave 2 available |
| WorkerVacationRoutes.UsedVacations | backend/src/routes/worker-vacation.routes.ts:24-26 | exactly the approved or completed vacations, as an order-preserving subsequence |
| WorkerVacationRoutes.PendingVacations | backend/src/routes/worker-vacation.routes.ts:27-29 | exactly the requested vacations, as an order-preserving subsequence |
| WorkerVacationRoutes.VacationBalanceHandler | backend/src/routes/worker-vacation.routes.ts:13-37 | 404 iff the worker is missing; 400 iff it has no hire date; otherwise the balance of that worker and hire date, with used and pending days from the status split |
| WorkerVacationRoutes.UsedAndPendingDisjoint | backend/src/routes/worker-vacation.routes.ts:24-29 | no vacation is in both lists |
| WorkerVacationRoutes.DaysSplitByStatus | backend/src/routes/worker-vacation.routes.ts:24-29 | all days = used days + pending days + days of rejected vacations |
| WorkerVacationRoutes.RejectedChangesNothing | backend/src/routes/worker-vacation.routes.ts:24-37 | adding a rejected vacation leaves the response unchanged |
| WorkerVacationRoutes.NewVacation | backend/src/repositories/vacation.repository.ts:53-58 | a created vacation has status requested |
| WorkerVacationRoutes.NewVacationIsPending | backend/src/repositories/vacation.repository.ts:53-58 | a newly created vacation of d days adds d pending days, no used days, and lowers availableDays by d |
| Calendar.DaysInMonth | backend/src/repositories/salary-advance.repository.ts:160 | a month has 28 to 31 days; February has 29 exactly in a leap year |
| Calendar.DaysBeforeMonth | backend/src/repositories/salary-advance.repository.ts:160 | the days before month m are those before m − 1 plus the length of m − 1 |
| Calendar.YearLength | backend/src/repositories/salary-advance.repository.ts:146-149 | consecutive years meet without a gap; a year has 365 days, or 366 in a leap year |
| Calendar.MonthsAreContiguous | backend/src/repositories/salary-advance.repository.ts:146-149 | the day after a month's last day is the first of the next month, as setDate rolls over |
| Calendar.InstantDay | backend/src/repositories/salary-advance.repository.ts:172-173 | 00:00:00.000 and 23:59:59.999 of a day lie inside that day, before the next day starts |
| Calendar.KnownWeekdays | backend/src/repositories/salary-advance.repository.ts:146 | getDay gives Thursday for 1970-01-01, Tuesday for 2000-02-29 and Monday for 2024-01-01 |
| SalaryAdvances.EffectiveFrequency | backend/src/repositories/salary-advance.repository.ts:55-57 | a missing or empty frequency falls back to monthly; any other value is kept |
| SalaryAdvances.MondayOfWeek | backend/src/repositories/salary-advance.repository.ts:146-149 | day − dow + (dow == 0 ? −6 : 1) is a Monday, and the day lies within that Monday's seven days |
| SalaryAdvances.GetCurrentPaymentPeriod | backend/src/repositories/salary-advance.repository.ts:138-176 | start is 00:00:00.000 and end 23:59:59.999 of the window's first and last day; the window is the Monday–Sunday week (weekly), 1–15 or 16–last (biweekly), or the whole month (anything else); it contains today |
| SalaryAdvances.PeriodIsUnique | backend/src/repositories/salary-advance.repository.ts:138-176 | for a frequency and date there is only one such window |
| SalaryAdvances.BiweeklyBoundaries | backend/src/repositories/salary-advance.repository.ts:154-160 | the 15th falls in the first half; the 16th of February ends on the 29th in 2024 and on the 28th in 2025 |
| SalaryAdvances.FindByWorkerId | backend/src/repositories/salary-advance.repository.ts:9-29 | an advance is kept iff it is the worker's and, when both bounds are given, its period starts by the end and ends after the start; order is kept |
| SalaryAdvances.TotalAfterAppend | backend/src/repositories/salary-advance.repository.ts:34-41 | the total over no advances is 0; a new advance adds its amount iff it is the worker's and overlaps the window |
| SalaryAdvances.FirstHalfOfJanuary | backend/src/repositories/salary-advance.repository.ts:16-21 | of advances for 1–15 and 16–31 January, a query for 1–15 January counts only the first |
| SalaryAdvances.GetAvailableAdvance | backend/src/repositories/salary-advance.repository.ts:46-73 | null iff the worker is missing, has no base salary, or is not direct; otherwise the base salary, effective frequency, current window, the total in it, and available = base − total, unclamped |
| SalaryAdvances.AcceptedAdvanceStaysWithinSalary | backend/src/repositories/salary-advance.repository.ts:103-107 | an accepted advance that overlaps the current window keeps the window's total within the base salary |
| SalaryAdvances.SalaryAdvanceRepository.Create | backend/src/repositories/salary-advance.repository.ts:78-119 | the checks run in order: worker exists, is direct, has a base salary, and amount ≤ available (equality accepted); an over-limit failure reports the requested amount and the available amount, which is the base salary less the advances already taken in the current pay period; the first failure is returned and nothing is stored; success appends one row with a fresh id |
| SalaryAdvances.SalaryAdvanceRepository.Delete | backend/src/repositories/salary-advance.repository.ts:124-133 | true iff an advance has that id; exactly the rows with other ids remain, in order |
| JobAdvances.NewJob | backend/src/repositories/job.repository.ts:62-67 | a new job is pending with no advances recorded |
| JobAdvances.AfterAdvance | backend/src/repositories/advance.repository.ts:22-24 | the new amount is (stored or 0) + amount; the job is completed iff now fully paid (advances ≥ total) or already completed, and otherwise keeps its status |
| JobAdvances.AfterAdvanceRemoved | backend/src/repositories/advance.repository.ts:122-134 | the amount is decremented (a null amount stays null) and the status is untouched |
| JobAdvances.AdvanceThenRemove | backend/src/repositories/advance.repository.ts:65-141 | recording then deleting an advance restores the amount but keeps a completion it caused |
| JobAdvances.CompletionIsNotReverted | backend/src/repositories/advance.repository.ts:94-103 | a job of 500 paid 500 and refunded 500 stays completed though it is no longer fully paid |
| JobAdvances.ApplyAdvancesAccumulates | backend/src/repositories/advance.repository.ts:79-103 | after a series of advances the cached amount is the initial amount plus their sum, and a job whose final total reaches its total is completed |
| JobAdvances.TwoAdvancesCompleteJob | backend/src/repositories/advance.repository.ts:94-103 | 200 leaves a job of 500 pending; 200 then 300 complete it |
| JobAdvances.LedgerAppend | backend/src/repositories/advance.repository.ts:88-91 | an inserted advance raises its own job's ledger by its amount and no other's |
| JobAdvances.LedgerRemoveAt | backend/src/repositories/advance.repository.ts:122-134 | a removed advance lowers its own job's ledger by its amount and no other's |
| JobAdvances.AdvanceRepository.Create | backend/src/repositories/advance.repository.ts:65-107 | a missing job fails and nothing is written; otherwise exactly one row is inserted and returned, the job gets the new amount and status, the warning fires iff the total is exceeded, and the cached amounts still equal the ledger sums |
| JobAdvances.AdvanceRepository.Delete | backend/src/repositories/advance.repository.ts:109-141 | false and no change for an unknown id or a missing job; otherwise the first row with that id is removed and its job's amount decremented, keeping the cached amounts equal to the ledger sums |
| InvoicePayments.NewInvoice | backend/src/repositories/invoice.repository.ts:64-66 | a new invoice is pending with paid amount 0 |
| InvoicePayments.DeriveStatus | backend/src/repositories/invoice-payment.repository.ts:60-64 | paid iff paid ≥ total; partial iff 0 < paid < total; pending iff paid ≤ 0 and paid < total |
| InvoicePayments.StatusIsMonotone | backend/src/repositories/invoice-payment.repository.ts:60-64 | paying more never moves the status back |
| InvoicePayments.AfterPayment | backend/src/repositories/invoice-payment.repository.ts:58-64 | paid amount = (stored or 0) + payment; status derived from it |
| InvoicePayments.AfterPaymentRemoved | backend/src/repositories/invoice-payment.repository.ts:101-112 | the stored paid amount is max(0, old − payment); the status is derived from the unclamped difference |
| InvoicePayments.PaymentThenRemoveRestores | backend/src/repositories/invoice-payment.repository.ts:43-112 | creating then deleting a payment restores a non-negative prior paid amount, with the status derived from it |
| InvoicePayments.ClampedStatusAgreement | backend/src/repositories/invoice-payment.repository.ts:101-112 | for a positive total the status agrees with the clamped amount; a total of 0 shows where they differ |
| InvoicePayments.LedgerAppend | backend/src/repositories/invoice-payment.repository.ts:45-51 | an inserted payment raises its own invoice's ledger by its amount and no other's |
| InvoicePayments.LedgerNonNegative | backend/src/repositories/invoice-payment.repository.ts:101-112 | a ledger of non-negative payments has a non-negative total |
| InvoicePayments.PaymentKeepsConsistent | backend/src/repositories/invoice-payment.repository.ts:46-73 | recording a non-negative payment keeps every invoice's paid amount equal to the sum of its payments and its status derived from that sum |
| InvoicePayments.RemovalKeepsConsistent | backend/src/repositories/invoice-payment.repository.ts:92-116 | deleting any payment keeps every invoice's paid amount equal to the sum of its remaining payments and its status derived from it; the clamp at 0 never takes effect |
| InvoicePayments.InvoicePaymentRepository.constructor | backend/src/repositories/invoice.repository.ts:64-66 | every invoice starts pending with 0 paid and no payments; that is consistent when every total is positive |
| InvoicePayments.InvoicePaymentRepository.Create | backend/src/repositories/invoice-payment.repository.ts:43-76 | the payment is always inserted with a fresh id; an existing invoice gets the new paid amount and status, a missing one is left alone; a non-negative payment keeps paid amounts equal to ledger sums |
| InvoicePayments.InvoicePaymentRepository.Delete | backend/src/repositories/invoice-payment.repository.ts:79-123 | false and no change for an unknown id; otherwise the first row with that id is removed and its invoice gets the clamped amount and re-derived status; consistency is kept |
| InvoiceRoutes.CleanNumbers | backend/src/routes/invoice.routes.ts:100 | exactly the non-empty trimmed inputs, in input order |
| InvoiceRoutes.CleanNumbersOne | backend/src/routes/invoice.routes.ts:100 | a blank item vanishes and any other is trimmed |
| InvoiceRoutes.CleanNumbersAppend | backend/src/routes/invoice.routes.ts:100 | cleaning distributes over concatenation |
| InvoiceRoutes.NotFound | backend/src/routes/invoice.routes.ts:103-106 | exactly the cleaned numbers no found invoice carries, in input order |
| InvoiceRoutes.NotFoundThird | backend/src/routes/invoice.routes.ts:103-106 | with two found invoices carrying the first two numbers, only the third number is not found |
| InvoiceRoutes.SplitPaidAndPending | backend/src/routes/invoice.routes.ts:108-113 | one paid and one pending invoice split into alreadyPaid and payable, and the payable total is the pending invoice's total |
| InvoiceRoutes.Reconcile | backend/src/routes/invoice.routes.ts:92-126 | 400 iff invoiceNumbers is missing or not an array; 500 iff it is an array with an element that is not a string, since trimming it throws; otherwise alreadyPaid and payable are the paid and the other found invoices in order, notFound as above, totalAmount the payable sum |
| InvoiceRoutes.ReconcilePartitionsFound | backend/src/routes/invoice.routes.ts:109-113 | when the request succeeds, payable and alreadyPaid together are a permutation of the found invoices, and the payable total is the found total less the paid total |
| InvoiceRoutes.ReconcileExample | backend/src/routes/invoice.routes.ts:92-126 | an array of strings giving three cleaned numbers, the first found paid, the second found pending, the third unmatched: payable is the second invoice, alreadyPaid the first, notFound the third number, and the total is the second invoice's total |
| InvoiceRoutes.ValidateBatchPay | backend/src/routes/invoice.routes.ts:129-142 | 400 iff invoiceIds is missing, not an array, or empty; otherwise the ids are passed on unchanged |
| JsStrings.Trim | backend/src/routes/invoice.routes.ts:100 | the result is the input minus its leading and trailing whitespace and starts and ends with non-whitespace; it is empty iff the input is all whitespace |
| JsStrings.TrimIdempotent | backend/src/routes/invoice.routes.ts:100 | trimming twice is trimming once |
| JsStrings.TrimExample | backend/src/routes/invoice.routes.ts:100 | " INV-1\t" trims to "INV-1" |
| JsStrings.TrimExampleInner | backend/src/routes/invoice.routes.ts:100 | inner spaces are kept |
| JsStrings.TrimExampleBlank | frontend/src/app/invoices/batch-payment-dialog/batch-payment-dialog.component.ts:56 | whitespace-only input trims to "" |
| JsStrings.LowerChar | frontend/src/app/shared/components/data-table/data-table.component.ts:120-121 | the Latin capitals (A–Z and À–Þ except ×) move 32 code points down to their small letters; every other character is kept; the result is never a capital |
| JsStrings.LowerCharLatinExamples | frontend/src/app/shared/components/data-table/data-table.component.ts:120-121 | É becomes é and Ñ becomes ñ, Q becomes q, while × and 7 are kept |
| JsStrings.ToLowerCase | frontend/src/app/shared/components/data-table/data-table.component.ts:120-121 | same length, each character lowered |
| JsStrings.ToLowerCaseAccented | frontend/src/app/shared/components/data-table/data-table.component.ts:120-121 | "JOSÉ" lowers to "josé" |
| JsStrings.ToLowerCaseIdempotent | frontend/src/app/shared/components/data-table/data-table.component.ts:120-121 | lowering twice is lowering once |
| JsStrings.Includes | frontend/src/app/shared/components/data-table/data-table.component.ts:123 | true iff the needle occurs at some position of the text |
| JsStrings.IncludesTrivialCases | frontend/src/app/shared/components/data-table/data-table.component.ts:123 | the empty string and the text itself are always included |
| JsStrings.NumberToString | frontend/src/app/shared/components/data-table/data-table.component.ts:120 | decimal digits without a leading zero, preceded by '-' iff negative |
| JsStrings.DecimalRoundTrip | frontend/src/app/shared/components/data-table/data-table.component.ts:120 | reading the digits back gives the number |
| JsStrings.NumberToStringInjective | frontend/src/app/shared/components/data-table/data-table.component.ts:120 | distinct numbers have distinct texts |
| CaseConverter.ToLower | backend/src/utils/case-converter.ts:11 | an uppercase letter becomes the lowercase letter 32 code points above it |
| CaseConverter.ToUpper | backend/src/utils/case-converter.ts:18 | a lowercase letter becomes the uppercase one that lowers back to it |
| CaseConverter.CamelToSnake | backend/src/utils/case-converter.ts:10-12 | no uppercase letter remains; the length grows by one per uppercase letter; a string without uppercase is unchanged |
| CaseConverter.CamelToSnakeCons | backend/src/utils/case-converter.ts:10-12 | an uppercase letter becomes '_' and its lowercase; any other character is kept |
| CaseConverter.CamelToSnakeIdempotent | backend/src/utils/case-converter.ts:10-12 | converting twice is converting once |
| CaseConverter.SnakeToCamel | backend/src/utils/case-converter.ts:17-19 | never longer; a string without '_' is unchanged |
| CaseConverter.SnakeToCamelCons | backend/src/utils/case-converter.ts:17-19 | a character other than '_' is kept |
| CaseConverter.SnakeToCamelJoinsLetter | backend/src/utils/case-converter.ts:17-19 | '_' followed by a lowercase letter becomes that letter in upper case, and the rest converts on its own |
| CaseConverter.SnakeToCamelKeepsUnderscore | backend/src/utils/case-converter.ts:17-19 | '_' not followed by a lowercase letter is kept, and the rest converts on its own |
| CaseConverter.SnakeToCamelKeepsOtherUnderscores | backend/src/utils/case-converter.ts:17-19 | "a__b_1" becomes "a_B_1": only '_' before a lowercase letter is consumed |
| CaseConverter.SnakeToCamelInvertsCamelToSnake | backend/src/utils/case-converter.ts:10-19 | snakeToCamel(camelToSnake(s)) == s when s has no '_' |
| CaseConverter.CamelToSnakeInvertsSnakeToCamel | backend/src/utils/case-converter.ts:10-19 | camelToSnake(snakeToCamel(s)) == s when s has no uppercase letter |
| CaseConverter.CamelToSnakeInjective | backend/src/utils/case-converter.ts:10-12 | distinct keys without '_' stay distinct |
| CaseConverter.CamelToSnakeExample | backend/src/utils/case-converter.ts:10-12 | "Amount" becomes "_amount" |
| CaseConverter.SnakeToCamelExample | backend/src/utils/case-converter.ts:17-19 | "_amount" becomes "Amount" |
| CaseConverter.Get | backend/src/utils/case-converter.ts:38-47 | an object has no value for a key iff no member has that key |
| CaseConverter.Put | backend/src/utils/case-converter.ts:43 | result[key] = value sets that key, leaves every other key alone, and appends a new key at the end |
| CaseConverter.PutKeepsDistinct | backend/src/utils/case-converter.ts:43 | assignment keeps keys unique |
| CaseConverter.LastValue | backend/src/utils/case-converter.ts:40-45 | absent iff no member has the key; otherwise the value of the last member with it |
| CaseConverter.Assemble | backend/src/utils/case-converter.ts:39-46 | the fresh object has unique keys, each bound to the last value assigned to it; an object with unique keys is rebuilt unchanged |
| CaseConverter.ConvertKeys | backend/src/utils/case-converter.ts:25-81 | null, undefined, Date and primitives are returned unchanged; arrays are converted element by element, keeping length and order; objects become fresh objects with unique keys |
| CaseConverter.ConvertedObjectKeys | backend/src/utils/case-converter.ts:38-47 | a converted object has a key iff some original key converts to it, and that key is bound to the converted value of the last such member |
| CaseConverter.RenameAll | backend/src/utils/case-converter.ts:40-45 | each member gets the converted key and recursively converted value, in order |
| CaseConverter.ConvertObject | backend/src/utils/case-converter.ts:38-47 | an object is converted by renaming its members and assembling a fresh object |
| CaseConverter.ObjectRoundTrip | backend/src/utils/case-converter.ts:38-47 | an object with unique keys without '_' whose values round-trip comes back unchanged from toSnakeCase then toCamelCase |
| CaseConverter.CaseRoundTrip | backend/src/utils/case-converter.ts:25-81 | toCamelCase(toSnakeCase(j)) == j for every tree whose keys contain no '_' and are unique per object |
| DataTable.DisplayText | frontend/src/app/shared/components/data-table/data-table.component.ts:120 | String(value or ''): falsy values give "", text is kept, a non-zero number gives its decimal text, true gives "true" |
| DataTable.GetCellValue | frontend/src/app/shared/components/data-table/data-table.component.ts:132-141 | formatter(raw, row) when there is a formatter, else the raw field (undefined when absent) |
| DataTable.NoFiltersShowEverything | frontend/src/app/shared/components/data-table/data-table.component.ts:108-110 | with no column filters every row passes |
| DataTable.EmptyFilterIsIgnored | frontend/src/app/shared/components/data-table/data-table.component.ts:114 | an empty filter value makes no difference to any row |
| DataTable.UnknownColumnIsIgnored | frontend/src/app/shared/components/data-table/data-table.component.ts:116-117 | a filter whose key names no column makes no difference to any row |
| DataTable.MoreFiltersShowFewerRows | frontend/src/app/shared/components/data-table/data-table.component.ts:113-128 | a row passing a set of filters passes each of them (AND across columns) |
| DataTable.FilterIgnoresCase | frontend/src/app/shared/components/data-table/data-table.component.ts:120-123 | a filter value and its lowercase form select the same rows |
| DataTable.DataTableComponent.SetupColumns | frontend/src/app/shared/components/data-table/data-table.component.ts:87-103 | 'select' if selection is on, 'rowNumber' if row numbers are on, the column keys in order, then 'actions' iff there are actions |
| DataTable.DataTableComponent.FilterPredicate | frontend/src/app/shared/components/data-table/data-table.component.ts:105-130 | a row passes iff every non-empty filter on a known column is a case-insensitive substring of the cell's display text |
| DataTable.DataTableComponent.ApplyColumnFilter | frontend/src/app/shared/components/data-table/data-table.component.ts:158-171 | a non-empty value sets the key, an empty one deletes it, other keys are untouched |
| DataTable.DataTableComponent.ClearColumnFilters | frontend/src/app/shared/components/data-table/data-table.component.ts:173-176 | the filter map is emptied, so every row passes |
| DataTable.DataTableComponent.ToggleRowSelection | frontend/src/app/shared/components/data-table/data-table.component.ts:196-203 | flips the membership of that row only |
| DataTable.DataTableComponent.ToggleAllRows | frontend/src/app/shared/components/data-table/data-table.component.ts:205-212 | clears the selection when its size equals the row count, otherwise adds every row |
| DataTable.DistinctRowCount | frontend/src/app/shared/components/data-table/data-table.component.ts:214-216 | distinct rows make a set of the same size |
| DataTable.AllSelectedMeansEveryRow | frontend/src/app/shared/components/data-table/data-table.component.ts:214-216 | for distinct rows and a selection drawn from them, size equality holds iff every row is selected |
| DataTable.StaleSelectionLooksFull | frontend/src/app/shared/components/data-table/data-table.component.ts:214-216 | a selection holding a row no longer in the data can have the data's size without holding every row |
| BatchPaymentDialog.PieceLength | frontend/src/app/invoices/batch-payment-dialog/batch-payment-dialog.component.ts:60 | the longest separator-free prefix |
| BatchPaymentDialog.RunLength | frontend/src/app/invoices/batch-payment-dialog/batch-payment-dialog.component.ts:60 | the longest prefix of commas and newlines |
| BatchPaymentDialog.SplitOnSeparators | frontend/src/app/invoices/batch-payment-dialog/batch-payment-dialog.component.ts:60 | at least one piece, none containing a comma or newline |
| BatchPaymentDialog.InnerPiecesAreNonEmpty | frontend/src/app/invoices/batch-payment-dialog/batch-payment-dialog.component.ts:60 | only the first and last piece can be empty, since a run of separators splits once |
| BatchPaymentDialog.PiecesKeepText | frontend/src/app/invoices/batch-payment-dialog/batch-payment-dialog.component.ts:60 | the pieces joined back give the input without its separators |
| BatchPaymentDialog.ParseNumbers | frontend/src/app/invoices/batch-payment-dialog/batch-payment-dialog.component.ts:60 | every number is non-empty, trimmed and free of separators |
| BatchPaymentDialog.SplitWithoutSeparators | frontend/src/app/invoices/batch-payment-dialog/batch-payment-dialog.component.ts:60 | text with no comma or newline is one piece |
| BatchPaymentDialog.SplitAtRun | frontend/src/app/invoices/batch-payment-dialog/batch-payment-dialog.component.ts:60 | a separator-free piece followed by a run of separators is cut exactly there, once, and splitting goes on after the run |
| BatchPaymentDialog.ParseNumbersOne | frontend/src/app/invoices/batch-payment-dialog/batch-payment-dialog.component.ts:60 | text with no separator gives its trimmed form, or nothing when that is empty |
| BatchPaymentDialog.ParseNumbersAtRun | frontend/src/app/invoices/batch-payment-dialog/batch-payment-dialog.component.ts:60 | a piece before a run of separators gives its trimmed form (or nothing when blank), followed by the numbers of the rest |
| BatchPaymentDialog.ServerCleaningIsIdentity | backend/src/routes/invoice.routes.ts:100 | the server's cleaning leaves the dialog's numbers unchanged |
| BatchPaymentDialog.BatchPaymentDialogComponent.constructor | frontend/src/app/invoices/batch-payment-dialog/batch-payment-dialog.component.ts:14-30 | the dialog starts on the input step with nothing found or selected |
| BatchPaymentDialog.BatchPaymentDialogComponent.OnVerify | frontend/src/app/invoices/batch-payment-dialog/batch-payment-dialog.component.ts:55-62 | nothing happens for blank input; otherwise the parsed numbers are requested and the dialog is busy |
| BatchPaymentDialog.BatchPaymentDialogComponent.OnVerifyResult | frontend/src/app/invoices/batch-payment-dialog/batch-payment-dialog.component.ts:63-74 | the result is stored, every payable id is added to the selection, and the step becomes verify |
| BatchPaymentDialog.BatchPaymentDialogComponent.OnVerifyError | frontend/src/app/invoices/batch-payment-dialog/batch-payment-dialog.component.ts:75-79 | only the busy flag is cleared |
| BatchPaymentDialog.BatchPaymentDialogComponent.OnBack | frontend/src/app/invoices/batch-payment-dialog/batch-payment-dialog.component.ts:83-89 | back to the input step with found, already-paid, not-found and the selection emptied; the total is kept |
| BatchPaymentDialog.BatchPaymentDialogComponent.RecalculateTotal | frontend/src/app/invoices/batch-payment-dialog/batch-payment-dialog.component.ts:100-104 | the total is the sum over found invoices whose id is selected |
| BatchPaymentDialog.BatchPaymentDialogComponent.ToggleSelection | frontend/src/app/invoices/batch-payment-dialog/batch-payment-dialog.component.ts:91-98 | flips the id's membership and then recomputes the total for the new selection |
| BatchPaymentDialog.BatchPaymentDialogComponent.OnPay | frontend/src/app/invoices/batch-payment-dialog/batch-payment-dialog.component.ts:106-112 | nothing happens with an empty selection; otherwise exactly the selected ids are requested |
| BatchPaymentDialog.BatchPaymentDialogComponent.OnPayError | frontend/src/app/invoices/batch-payment-dialog/batch-payment-dialog.component.ts:117-121 | a failed batch payment clears the busy flag |
| BatchPaymentDialog.ArrayFrom | frontend/src/app/invoices/batch-payment-dialog/batch-payment-dialog.component.ts:110 | the array holds exactly the set's elements, each once |
| BatchPaymentDialog.FullSelectionTotal | frontend/src/app/invoices/batch-payment-dialog/batch-payment-dialog.component.ts:64-72 | with every payable invoice selected, the recomputed total is the payable total the server sent |
| BatchPaymentDialog.EmptySelectionTotal | frontend/src/app/invoices/batch-payment-dialog/batch-payment-dialog.component.ts:100-104 | an empty selection totals 0 |
| TemplateEditor.DraggedZone | frontend/src/app/suppliers/template-editor/template-editor.component.ts:164-176 | a zone iff both sizes exceed 5; it sits at the minimum corner, has the absolute sizes, an empty label and the given page |
| TemplateEditor.DragDirectionIsIrrelevant | frontend/src/app/suppliers/template-editor/template-editor.component.ts:169-176 | dragging either way gives the same zone |
| TemplateEditor.SpliceOne | frontend/src/app/suppliers/template-editor/template-editor.component.ts:206 | splice(index, 1): removes exactly the element at an index in range, keeping the rest in order; a negative index counts from the end; an index past the end changes nothing |
| TemplateEditor.SpliceOneRemovesOne | frontend/src/app/suppliers/template-editor/template-editor.component.ts:206 | the removed element plus the rest is the original multiset |
| TemplateEditor.GetFieldLabel | frontend/src/app/suppliers/template-editor/template-editor.component.ts:201-203 | the caption of the matching field type, or the value itself when none matches |
| TemplateEditor.FieldLabelExamples | frontend/src/app/suppliers/template-editor/template-editor.component.ts:30-35 | "invoiceDate" reads "Date"; an unknown value reads as itself |
| TemplateEditor.InitialZones | frontend/src/app/suppliers/template-editor/template-editor.component.ts:49-55 | no zones outside edit mode or without zone text; otherwise the parsed zones, or none when parsing fails |
| TemplateEditor.TemplateEditorComponent.constructor | frontend/src/app/suppliers/template-editor/template-editor.component.ts:37-55 | edit mode iff a template is given; the name is the template's or empty; zones are the initial zones |
| TemplateEditor.TemplateEditorComponent.OnMouseDown | frontend/src/app/suppliers/template-editor/template-editor.component.ts:142-145 | drawing starts at the given point |
| TemplateEditor.TemplateEditorComponent.OnMouseUp | frontend/src/app/suppliers/template-editor/template-editor.component.ts:159-179 | no change unless drawing; otherwise drawing stops and the dragged zone, if any, is appended |
| TemplateEditor.TemplateEditorComponent.RemoveZone | frontend/src/app/suppliers/template-editor/template-editor.component.ts:205-208 | the zone list is spliced at the index |
| TemplateEditor.TemplateEditorComponent.Save | frontend/src/app/suppliers/template-editor/template-editor.component.ts:212-244 | nothing happens unless the form is valid; otherwise exactly the labelled zones, in order, are sent to the template (edit mode) or to a template created first |
| TemplateEditor.TemplateEditorComponent.OnSaveError | frontend/src/app/suppliers/template-editor/template-editor.component.ts:222-241 | the dialog closes iff saving zones failed after the template was created; every other failure clears the loading flag and leaves the dialog open |

## Left out

- HTTP and Express glue: status codes are datatype cases, and response bodies beyond the modelled fields are not modelled.
- The repository lookups whose bodies are not shown are inputs to the handlers. These are the worker lookup with vacations, `findByInvoiceNumbers`, and the supplier filter passed to it.
- `batchPay` is not part of this model. Only the batch-pay input check is modelled.
- Database transactions: each create and delete is one atomic method. Rollback is modelled only as "nothing changes" on the failure paths the source has.
- Query ordering (`orderBy`) is not modelled. A repository's `seq` keeps insertion order.
- Time zones and daylight saving are not modelled. Every day is 86 400 000 ms of local time, and the clock read is a parameter.
- Money is `int`. The Prisma `Decimal` → `Number` conversion and floating-point rounding are not modelled.
- CaseConverter.CamelToSnake: only ASCII A–Z are recognised as uppercase. This is what the regular expression matches. Unicode case mapping is not modelled.
- CaseConverter.ConvertKeys: JavaScript places integer-like keys first, in numeric order. Here keys keep first-assignment order. Prototype (non-own) keys are not modelled.
- CaseConverter.CaseRoundTrip: stated for keys without '_' and unique per object. A key such as `a_b` does not survive the round trip, and that is the source's behaviour.
- `JSON.parse` in the template editor is a parameter. A parse that yields a non-array value is not modelled.
- Mouse coordinates are integers. The canvas scaling, `drawZones` and PDF rendering are not modelled.
- The `Math.random()` filter trigger, the paginator, sorting, `getColumnCssClass`, and the event emitters (`selectionChange`, `rowClick` and the others) are not modelled.
- DataTable.DisplayText: object and Date cell values, and non-integer numbers, are not modelled.
- DataTable.DataTableComponent.FilterPredicate: the map's iteration order is not modelled. The result does not depend on it.
- DataTable.DataTableComponent.FilterPredicate: a filter or cell holding capitals outside Latin-1 (Greek, Cyrillic, Latin Extended, or the special mapping of İ) is matched without lowering them, so its result can differ from the source's.
- JsStrings.LowerChar: lowers only the Latin-1 capitals. Capitals beyond Latin-1 and the special mappings of `toLowerCase` (İ, final sigma) are kept unchanged.
- JsStrings.ToLowerCase: inherits the Latin-1 restriction of JsStrings.LowerChar. Full Unicode case mapping, which can change a string's length, is not modelled.
- Dialog closing, snack-bar messages and console output are not modelled.
- JobAdvances.AfterAdvanceRemoved: decrementing a null amount leaves it null, as SQL `NULL - x` does. The repository's invariant rules this case out.
- InvoicePayments.InvoicePaymentRepository.constructor: consistency is promised only for positive totals. An invoice with total 0 starts pending although 0 ≥ 0 would derive paid.
- BatchPaymentDialog.BatchPaymentDialogComponent.OnVerifyResult: a selection left over from an earlier verify is kept, as in the source. The total then comes from the server and not from the selection.
