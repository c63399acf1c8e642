# Loan payoff tracker — Dafny model

This project models the calculation core of a personal loan tracker (a
Next.js application that keeps a list of loans and shows how they will be
paid down). It covers the following parts:

- **The amortisation engine** (`Calculations`, `Projections`). It computes:
  - monthly interest;
  - months to payoff, with a "never pays off" result and a 600-month cap;
  - total interest and the payoff date;
  - the month-by-month stacked principal/interest series and the balance projection.

  All of them rest on one balance step: `b' = max(0, b - (payment - b * rate/1200))`.
- **The logic around the engine:**
  - the dashboard's portfolio figures (`Dashboard`);
  - the "pay this month" action (`Pay`);
  - building and validating a loan from the form (`LoanForm`);
  - the local loan list with its storage key and legacy migration (`Storage`);
  - loan templates and title de-duplication (`LoanTemplates`);
  - the local user directory and login by name (`UserStorage`);
  - the mapping to and from rows of the remote `debts` table (`SupabaseStorage`).

Amounts are exact `real`s. `Infinity` ("never pays off") is the result
variant `NeverPayoff`. The tolerance (0.01) and the cap (600) are the named
constants `Tolerance` and `MaxMonths`. Storage, fresh ids and clocks are
parameters: a list comes in and the list to save goes out, and a fresh id
and a timestamp are passed by the caller. JavaScript's `x || 0` on numbers is
`OrZero` over `Option<real>`. `None` there stands for a missing value or an
unparsable `NaN`.

The central proofs are:

- The months to payoff are characterised by `SettlesAt`: every earlier
  balance is above the tolerance, and the cap is reached or the balance is
  within the tolerance.
- The in-loop `Infinity` exit is unreachable once the first month amortises.
- Total interest equals a reference sum. In the amortising case (positive
  rate, balance and payment, with the payment above the first month's
  interest) it lies strictly between 0 and the payments made.
- At a non-negative rate and with a schedule below the 600-month cap, paying
  one month shortens the schedule by exactly one month.
- The stacked series is additive across loans.
- One loan's principal column sums to its balance minus what is left after
  the months to payoff: exactly the balance at 0%, and within the 0.01
  tolerance of it below the 600-month cap.
- A single forward pass that carries each loan's balance yields the same
  series as replaying every month from month 0.

## Model

| member | source | states |
|---|---|---|
| Calculations.MonthlyInterest | src/lib/calculations.ts:7-12 | Never negative; zero exactly when the rate or the balance is not positive; otherwise balance times rate/100/12 |
| Calculations.Step | src/lib/calculations.ts:34-37 | One month of the schedule never leaves a negative balance |
| Calculations.Replay | src/lib/calculations.ts:141-148 | The replayed balance stays non-negative from a non-negative start |
| Calculations.ReplayIsIter | src/lib/calculations.ts:144-148 | With a non-negative payment the `balance > 0` guard of the replay never matters: the replay is the k-fold step, and it is non-negative |
| Calculations.MonthsToPayoff | src/lib/calculations.ts:46-82 | 0 months for a non-positive payment or balance; `NeverPayoff` exactly when the payment does not exceed the first month's interest; ceil(balance/payment) at a non-positive rate; in the amortising case a finite count at which the schedule settles |
| Calculations.ZeroRatePayoff | src/lib/calculations.ts:51-54 | Without interest the count is the least number of payments covering the balance: (n-1)·payment < balance <= n·payment |
| Calculations.IterStaysWithinBalance | src/lib/calculations.ts:69-77 | In the amortising case the balance never rises above its start, so the principal portion stays positive (the loop's `Infinity` exit cannot fire) |
| Calculations.PayoffLoop | src/lib/calculations.ts:64-81 | Started within the cap, the loop stops between the starting month and the cap; it returns later than it started only from a balance above the tolerance; it exits with `Infinity` only from a balance above the tolerance and below the cap |
| Calculations.PayoffLoopSettles | src/lib/calculations.ts:64-81 | The capped loop returns a finite count, and that count is where the schedule settles (within tolerance, or the cap) |
| Calculations.PayoffLoopUnfold | src/lib/calculations.ts:69-78 | In the amortising case one more round of the loop is exactly one more balance step |
| Calculations.SettlesAtUnique | src/lib/calculations.ts:69-81 | At most one month count can be where the schedule settles |
| Calculations.PayoffWithinBound | src/lib/calculations.ts:64-81 | The count never exceeds ceil(balance / (payment - first month's interest)) |
| Calculations.IterLowerBound | src/lib/calculations.ts:70-77 | With a non-negative rate each month removes at most one payment |
| Calculations.IterUpperBound | src/lib/calculations.ts:70-77 | In the amortising case each month removes at least the first month's principal portion |
| Calculations.StepUpperBound | src/lib/calculations.ts:70-77 | From any balance up to the start, one step removes at least the first month's principal portion |
| Calculations.InterestLoop | src/lib/calculations.ts:30-38 | The summing loop's total is non-negative for a non-negative rate |
| Calculations.TotalInterest | src/lib/calculations.ts:17-41 | Never negative; 0 for a non-positive rate or balance, for a loan that never pays off, and for a loan paid off in 0 months (a non-positive payment) |
| Calculations.InterestLoopIsSum | src/lib/calculations.ts:30-38 | While balances stay positive, the loop adds exactly the reference terms Step^j(balance)·r |
| Calculations.TotalInterestIsInterestSum | src/lib/calculations.ts:17-41 | Total interest is the sum of Step^k(balance)·r for k below the months to payoff, the same step as the payoff count |
| Calculations.InterestTermBounds | src/lib/calculations.ts:33-37 | Each month's interest lies between 0 and the first month's interest |
| Calculations.InterestSumBounds | src/lib/calculations.ts:33-37 | k months of interest lie between 0 and k times the first month's interest |
| Calculations.InterestSumPositive | src/lib/calculations.ts:33-37 | Any positive number of amortising months charges positive interest |
| Calculations.InterestSumBelowPayments | src/lib/calculations.ts:33-37 | k > 0 amortising months charge interest strictly between 0 and k payments |
| Calculations.TotalInterestBelowPayments | src/lib/calculations.ts:17-41 | In the amortising case 0 < total interest < months · payment |
| Calculations.PayoffDate | src/lib/calculations.ts:87-95 | No date (`None`) exactly when the loan never pays off; otherwise the offset is the months to payoff |
| Calculations.AfterPayment | src/app/page.tsx:117-121 | A month's payment changes only the balance, which stays non-negative |
| Calculations.StepAdvancesPayoff | src/lib/calculations.ts:46-82 | For a non-negative rate, after one payment the months to payoff drop by exactly one while below the cap |
| Calculations.AmortizingStepAdvances | src/lib/calculations.ts:64-81 | With positive interest, the schedule after one payment settles one month earlier |
| Calculations.ZeroRateStepAdvances | src/lib/calculations.ts:51-54 | At 0% one payment lowers ceil(balance/payment) by exactly one |
| Calculations.IterShift | src/lib/calculations.ts:70-77 | Stepping once and then k times is stepping k+1 times |
| Calculations.IterSameTerms | src/lib/calculations.ts:70-77 | The schedule depends on the loan only through its rate and payment |
| Calculations.ZeroRateExample | src/lib/calculations.ts:51-54 | Balance 120000 at 0% paying 10000 takes exactly 12 months |
| Calculations.NeverPayoffExample | src/lib/calculations.ts:58-62 | Balance 100000 at 24% paying 1500 never pays off, with no interest total and no payoff date |
| Calculations.ConvergenceExample | src/lib/calculations.ts:64-81 | Balance 1000000 at 12% paying 100000 pays off in 1 to 12 months, with the balance then within the tolerance |
| Calculations.CapTruncatesSlowPayoff | src/lib/calculations.ts:67-81 | A loan needing more than 600 months is reported as 600 months, though its balance after 600 months is still above the tolerance |
| Projections.Entry | src/lib/calculations.ts:162-170 | Each chart point's total is principal plus interest |
| Projections.MaxFiniteMonths | src/lib/calculations.ts:116-119 | The horizon bounds every finite months to payoff and is one of them, or 0 |
| Projections.ContributionWith | src/lib/calculations.ts:129-159 | A loan adds nothing when its balance is not positive, when it never pays off, or from its own months to payoff on |
| Projections.Contribution | src/lib/calculations.ts:129-159 | The same three "contributes nothing" cases, stated against the loan's own months to payoff |
| Projections.GenerateStackedAreaData | src/lib/calculations.ts:101-174 | The series has horizon + 1 points (1 when nothing is finite), each with total = principal + interest |
| Projections.ProjectedBalance | src/lib/calculations.ts:197-216 | A loan's projected balance is never negative, and at month 0 is its current balance when active |
| Projections.BalanceAt | src/lib/calculations.ts:195-217 | The projected total balance of a month is never negative |
| Projections.GenerateBalanceProjection | src/lib/calculations.ts:179-229 | horizon + 1 points, all non-negative, the first equal to the active balances |
| Projections.StartIsActiveBalance | src/lib/calculations.ts:191-217 | Month 0 sums the balances of loans with positive balance and a finite, positive months to payoff |
| Projections.PeriodTotals | src/lib/calculations.ts:126-160 | The month's portions summed over the loans in list order; its contract is carried by the lemmas below: PeriodTotalsAppend (additive over concatenation, which fixes the in-order one-loan-at-a-time sum) and QuietAfterHorizon (nothing past the horizon) |
| Projections.PeriodTotalsAppend | src/lib/calculations.ts:126-160 | A month's totals over two lists are the sums of their totals |
| Projections.MaxFiniteMonthsAppend | src/lib/calculations.ts:116-119 | The horizon of two lists together is the larger horizon |
| Projections.QuietAfterHorizon | src/lib/calculations.ts:134-137 | Past the horizon no loan contributes |
| Projections.QuietPastOwnHorizon | src/lib/calculations.ts:134-137 | From its own months to payoff on, a loan contributes nothing |
| Projections.StackedSeriesAdditive | src/lib/calculations.ts:101-174 | The series of two lists together is the pointwise sum of their series, the shorter padded with empty months |
| Projections.EntryAtSeries | src/lib/calculations.ts:122-170 | Reading the series at any month, even past its end, gives that month's totals |
| Projections.ContributionIsBalanceDrop | src/lib/calculations.ts:150-158 | A month's principal portion min(payment - interest, balance) is exactly the balance drop b_m - b_{m+1} |
| Projections.StepSplitsPayment | src/lib/calculations.ts:145-155 | The step removes exactly the principal portion of the chart |
| Projections.SumPrincipalTelescopes | src/lib/calculations.ts:140-159 | The first k principal entries of one loan sum to balance - b_k |
| Projections.SingleLoanPrincipalSum | src/lib/calculations.ts:101-174 | One loan's principal column sums to balance - Step^months(balance) |
| Projections.SingletonSeries | src/lib/calculations.ts:116-159 | The chart of one loan has months to payoff + 1 points, each holding that loan's own principal portion |
| Projections.ZeroRatePrincipalConserved | src/lib/calculations.ts:140-159 | At 0% the principal column sums to exactly the balance |
| Projections.ZeroRateIter | src/lib/calculations.ts:145-147 | At 0% each month takes a full payment off, down to zero |
| Projections.AmortizingPrincipalNearlyConserved | src/lib/calculations.ts:140-159 | With interest and below the cap, the principal column sums to within the tolerance of the balance |
| Projections.PortionAtReplay | src/lib/calculations.ts:140-159 | The portion computed from a carried balance equals the replayed contribution |
| Projections.LoanForward | src/lib/calculations.ts:140-159 | One loan's portion from its carried balance is its replayed contribution, and its next balance is the replay one month on |
| Projections.MonthForward | src/lib/calculations.ts:126-160 | One forward month yields that month's totals and carries every balance one month on |
| Projections.SeriesForward | src/lib/calculations.ts:122-170 | One forward month extends the series prefix by that month's entry and carries every balance one month on |
| Projections.StackedSeriesForward | src/lib/calculations.ts:101-174 | Carrying per-loan balances forward gives exactly the replayed series |
| Loans.Merge | src/lib/storage.ts:64 | For each of the seven fields, a value present in the patch wins and an absent one keeps the loan's; an empty patch changes nothing |
| Strings.LeadingSpace | src/lib/userStorage.ts:44 | The length of the leading white space: every character before it is white space and the one at it is not |
| Strings.ContentEnd | src/lib/userStorage.ts:44 | Where the content ends: every character from it on is white space and the one before it is not |
| Strings.Trim | src/components/LoanForm.tsx:45 | The result is the slice of the input starting right after its leading white space; every character outside that slice is white space; the result neither starts nor ends with white space |
| Strings.TrimEmptyIffBlank | src/lib/userStorage.ts:44-47 | The trimmed name is empty exactly when the name is all white space |
| Strings.TrimFixesTrimmed | src/components/LoanForm.tsx:45 | Trimming leaves a string unchanged exactly when neither end is white space |
| Strings.TrimIdempotent | src/components/LoanForm.tsx:45 | Trimming twice is trimming once |
| Lists.Find | src/lib/storage.ts:62 | The position of the first equal element, or none exactly when no element is equal |
| Lists.IndexOf | src/lib/loanTemplates.ts:101-103 | The position of the first occurrence of an element |
| Lists.Distinct | src/lib/loanTemplates.ts:101-103 | No duplicates, and exactly the elements of the input |
| Lists.DistinctKeepsFirstOccurrenceOrder | src/lib/loanTemplates.ts:101-103 | Distinct elements come in the order of their first occurrence |
| Lists.IndexOfPrefix | src/lib/loanTemplates.ts:101-103 | A first occurrence within a prefix is the first occurrence in the whole list |
| Lists.DistinctOfDistinct | src/lib/loanTemplates.ts:103 | A list without duplicates is returned unchanged |
| UserStorage.FindByName | src/lib/userStorage.ts:50 | The index of the first user with the name, or none exactly when no user has it |
| UserStorage.FindById | src/lib/userStorage.ts:106 | The index of the first user with the id, or none exactly when no user has it |
| UserStorage.UpdateUserLastAccessed | src/lib/userStorage.ts:104-111 | Only the first user with the id changes, and only its last-access time; no change when the id is absent |
| UserStorage.FindOrCreateUser | src/lib/userStorage.ts:43-71 | Rejects exactly the blank names; reuses the first user with the trimmed name without growing the list and saves that user, stamped, at its position, else appends one new user with the trimmed name, fresh id and the current time. Making the user current stamps the first user with its id once more, so only the reused user and the first user sharing its id are re-stamped, and only their last-access time changes; every user with another id is saved unchanged |
| UserStorage.FindOrCreateKeepsNamesUnique | src/lib/userStorage.ts:49-67 | If names were unique before a login, they stay unique |
| UserStorage.StampKeepsNamesUnique | src/lib/userStorage.ts:104-111 | Stamping a user's last access keeps unique names unique |
| UserStorage.LoginTwiceFindsSameUser | src/lib/userStorage.ts:49-57 | A second login with the same name finds the same user (same id) and does not grow the list |
| UserStorage.StampedFrame | src/lib/userStorage.ts:52-56 | Reusing a user and then stamping the first user with its id changes no other user |
| UserStorage.AppendedFrame | src/lib/userStorage.ts:58-69 | Appending a new user and then stamping the first user with its id changes no other existing user |
| UserStorage.FirstNameMatch | src/lib/userStorage.ts:50 | A user with the name and none before it is the one the lookup finds |
| UserStorage.GetUserDataKey | src/lib/userStorage.ts:116-118 | The key is the data type, an underscore, then the user id |
| UserStorage.UserDataKeyInjective | src/lib/userStorage.ts:116-118 | For one data type, different users get different keys |
| UserStorage.UserDataKeyAmbiguousAcrossTypes | src/lib/userStorage.ts:116-118 | Across data types, ids and types containing "_" can collide |
| Storage.GetStorageKey | src/lib/storage.ts:4-11 | "loans_" + user id with a current user, "loans" without |
| Storage.StorageKeysSeparate | src/lib/storage.ts:4-11 | Different users never share a key, and no user key equals the legacy key |
| Storage.MigrateLoan | src/lib/storage.ts:14-24 | A missing type becomes "A" and a present one is kept; a type-A record without principal gets its balance or 0; type-B records and records with a principal keep it; nothing else changes |
| Storage.MigrateLoanIdempotent | src/lib/storage.ts:14-24 | Migrating a migrated record changes nothing |
| Storage.MigrateAll | src/lib/storage.ts:36 | Every stored record is migrated, in order |
| Storage.AddLoan | src/lib/storage.ts:54-58 | The loan is appended and every existing loan stays in place |
| Storage.FindIndex | src/lib/storage.ts:62 | The index of the first loan with the id, or none exactly when no loan has it |
| Storage.UpdateLoan | src/lib/storage.ts:60-67 | No save when the id is absent; otherwise same length, the first match merged, all other positions unchanged |
| Storage.UpdateWithEmptyPatch | src/lib/storage.ts:60-67 | An empty update leaves the list as it was |
| Storage.DeleteLoan | src/lib/storage.ts:69-73 | Exactly the loans without the id remain |
| Storage.DeleteLoanAppend | src/lib/storage.ts:71 | Deleting distributes over concatenation, so the survivors keep their relative order |
| Storage.DeleteLoanIdempotent | src/lib/storage.ts:69-73 | Deleting twice is deleting once |
| Storage.AddThenDelete | src/lib/storage.ts:54-73 | Deleting the id of a loan just added undoes the addition |
| LoanTemplates.CreateLoanFromTemplate | src/lib/loanTemplates.ts:80-93 | Type, title and rate copied; principal and payment default to 0; balance is the supplied one if truthy, else the principal (or 0) |
| LoanTemplates.ZeroBalanceFallsBack | src/lib/loanTemplates.ts:89 | A supplied balance of 0 falls back like a missing one |
| LoanTemplates.TypeBTemplatesStartEmpty | src/lib/loanTemplates.ts:15-93 | Every type-B template has no principal and yields principal 0 and balance 0 without a balance |
| LoanTemplates.TemplateIdsDistinct | src/lib/loanTemplates.ts:15-75 | Eight templates with distinct ids |
| LoanTemplates.Titles | src/lib/loanTemplates.ts:101 | The loans' titles, position by position |
| LoanTemplates.GetPreviousLoanTitles | src/lib/loanTemplates.ts:98-104 | Empty for no loans; no duplicates; every title present and nothing else; first-occurrence order |
| SupabaseStorage.LoanToDebtRow | src/lib/supabaseStorage.ts:19-30 | The owner is the given user and the six loan fields land in their snake_case columns |
| SupabaseStorage.DebtRowToLoan | src/lib/supabaseStorage.ts:33-43 | The loan fields are read back from their columns; owner and timestamps are dropped |
| SupabaseStorage.LoanRoundTrip | src/lib/supabaseStorage.ts:19-43 | A loan saved and read back is the same loan, whatever owner and timestamps |
| SupabaseStorage.RowRoundTrip | src/lib/supabaseStorage.ts:19-43 | A row read and saved again under its owner and timestamps is the same row |
| SupabaseStorage.BuildUpdateData | src/lib/supabaseStorage.ts:144-154 | The payload holds exactly the defined loan fields under their column names, never the id, owner or timestamps; an empty update gives an empty payload |
| SupabaseStorage.RemoteUpdateMatchesMerge | src/lib/supabaseStorage.ts:144-160 | Applying the payload to a row agrees with merging the update into the loan, except that an id is not sent |
| Dashboard.TypeA | src/components/Dashboard.tsx:37-39 | Exactly the type-A loans |
| Dashboard.SumInterest | src/components/Dashboard.tsx:65-68 | The portfolio's total interest is never negative |
| Dashboard.ProgressPercentage | src/components/Dashboard.tsx:47-53 | 0 without principal; otherwise progress · principal = (principal - type-A balance) · 100 |
| Dashboard.EstimatedMonths | src/components/Dashboard.tsx:56-59 | 0 without a positive payment; otherwise the least count with count · payment >= balance |
| Dashboard.Summarize | src/components/Dashboard.tsx:31-68 | Balance and payment totals over all loans; principal and type-A balance over type-A loans; paid + balance = principal; total interest is the sum of the per-loan totals and non-negative |
| Dashboard.TypeAAppend | src/components/Dashboard.tsx:37-50 | Filtering distributes over concatenation |
| Dashboard.TypeAIdempotent | src/components/Dashboard.tsx:37-50 | Filtering twice is filtering once |
| Dashboard.SumsAppend | src/components/Dashboard.tsx:31-68 | Every sum over two lists is the sum of the sums |
| Dashboard.SummaryAdditive | src/components/Dashboard.tsx:31-68 | The figures of two lists together are the sums of their figures |
| Dashboard.ProgressIgnoresTypeB | src/components/Dashboard.tsx:47-53 | Dropping all type-B loans leaves progress unchanged |
| Dashboard.TypeABalanceWithinPrincipal | src/components/Dashboard.tsx:37-50 | Balances within their principals sum to within the summed principal |
| Dashboard.PercentageBounds | src/components/Dashboard.tsx:51-53 | A balance between 0 and the principal gives a progress between 0 and 100 |
| Dashboard.ProgressIsPercentage | src/components/Dashboard.tsx:47-53 | With every type-A balance within its principal, progress lies between 0 and 100 |
| Dashboard.TotalPaidCanBeNegative | src/components/Dashboard.tsx:62 | A lone type-B balance of 1000 gives a paid figure of -1000 |
| Dashboard.DurationLabel | src/components/Dashboard.tsx:158-160 | A caption exactly above 12 months, with years · 12 + months = the estimate and 0 <= months < 12 |
| Pay.HandlePay | src/app/page.tsx:113-127 | Nothing when no loan has the id or its balance is not positive; otherwise an update of the balance only, to the engine's one-month replay, non-negative |
| Pay.PayIsAfterPayment | src/app/page.tsx:117-121 | Merging the update gives the engine's one-month step on the loan |
| Pay.PayShortensSchedule | src/app/page.tsx:117-121 | For a non-negative rate and a schedule below the cap, paying shortens the months to payoff by exactly one |
| Pay.PayPayloadIsBalanceOnly | src/app/page.tsx:121 | The remote payload holds the balance column only |
| LoanForm.HandleSubmit | src/components/LoanForm.tsx:39-59 | Rejected exactly when the parsed rate is not positive (unparsable counts as 0); type B gets principal 0; unparsable numbers become 0; the title is trimmed; an existing non-empty id is kept, else the fresh id |
| LoanForm.EditRoundTrip | src/components/LoanForm.tsx:26-59 | A loan with a non-empty id, a positive rate, a title without surrounding white space and (for type B) principal 0, shown in the form and submitted unchanged, comes back as the same loan |
| LoanForm.SubmittedTitleIsStable | src/components/LoanForm.tsx:45 | With a positive parsed rate the form submits, and the submitted title is already trimmed |

## Left out

- UTF-16 code units: Dafny strings are sequences of Unicode scalar values, so a lone surrogate, which a JavaScript string can hold, cannot be represented.
- IEEE-754 arithmetic: amounts are exact reals, so rounding, summation order, `NaN` propagation and `Infinity` arithmetic are not reproduced. The 0.01 tolerance is kept as a constant.
- Calendar and locale: `new Date()`, `setMonth` and `toLocaleDateString` are not modelled. `Calculations.PayoffDate` returns the month offset instead of a date, and the chart points carry no date label.
- `generateYearlyStackedAreaData`: the dashboard imports it, but `src/lib/calculations.ts` does not define it, so there is nothing to model.
- Supabase and auth I/O: the async `getLoans`/`addLoan`/`updateLoan`/`deleteLoan` in `src/lib/supabaseStorage.ts` are network calls. Only the row mapping and the update payload are modelled, and `SupabaseStorage.ApplyDebtPatch` stands for the database applying the payload.
- localStorage, `JSON.parse`/`JSON.stringify`, `crypto.randomUUID` and the clock: lists are passed in and returned, and ids and timestamps are parameters. A record that fails to parse (the `catch` returning `[]`) is not modelled.
- Storage.MigrateLoan: a stored `type` other than "A" or "B" is not representable. A falsy type (missing or empty) is `None`.
- UserStorage.FindOrCreateUser: the separate `new Date()` calls within one login are taken to return the same instant.
- LoanForm.HandleSubmit: `parseFloat` is abstracted as an `Option<real>` given by the caller, and the string round trip of the form's prefill is taken to be exact.
- Calculations.Step: its contract states only non-negativity. Its relation to the loop bodies is carried by `ReplayIsIter`, `StepSplitsPayment` and `Pay.HandlePay`.
- Presentational UI: rendering, dialogs, confetti, count-up animation, dark mode and the login page are not modelled.
- Monotonicity of months to payoff and total interest in the payment is not proved.

## Notes on the source

- The 600-month cap is a silent truncation. `Calculations.CapTruncatesSlowPayoff` shows a loan that is still far from paid off after 600 months but is reported as `Payoff(600)`.
- Because of that cap, the principal column of a single loan sums to its balance, within the tolerance, only below the cap (`Projections.AmortizingPrincipalNearlyConserved`). At the cap the column can fall short by far more.
- The dashboard's "paid" figure subtracts type-B balances from type-A principals, so it can be negative (`Dashboard.TotalPaidCanBeNegative`).
