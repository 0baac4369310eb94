# Seed-capital return simulator: the return/fee engine

This project models `calculateReturns` from the commission simulator. Given a
capital, a term in months, and a benefit mode (simple or compound interest),
the engine does four things:

1. It picks a monthly rate by term. Terms 3, 6, 9 and 12 earn 1%, 2%, 3% and
   4%. Any other term silently falls back to 1%.
2. It picks a service-fee rate by capital tier. The tiers have inclusive upper
   bounds: up to 1000 pays 2%, up to 10000 pays 1%, up to 35000 pays 0.5%,
   and anything above pays 0.25%.
3. It builds one row per month, for months 1..term. In simple mode, profit is
   always earned on the original capital. In compound mode, profit is earned
   on a running balance.
4. It takes the gross amount from the last row and deducts the fee. It
   returns the gross, fee and net amounts, with both rates reported as
   percentages.

Layout:

- `rates.dfy` (module `Rates`): the term→rate switch and the capital→fee
  if-chain. Each is proved equal to a data-driven table (`RateTable`,
  `FeeTiers`). A generic lemma shows that any well-formed tier table is a
  non-increasing step function.
- `schedule.dfy` (module `Schedule`): the row datatype and the benefit mode.
  Each month's row is defined directly (`SimpleRow`, `CompoundRow` over the
  running `Balance`). `BuildMonthlyRows` performs the engine's own loop,
  including reading a compound row's basis back from the previous row, and is
  proved to produce exactly those rows. The lemmas cover linear growth in
  simple mode, the recurrence and the closed form `capital * (1 + rate)^m` in
  compound mode, strict growth, and compound never earning less than simple.
- `calculation.dfy` (module `Calculation`): result assembly (`Simulate`, and
  the statement-by-statement `CalculateReturns`), the properties of the
  assembled result, and the worked scenarios from the engine's tests.

Money is modelled with `real`, so all arithmetic is exact. A term below 1
makes the loop produce no rows. The engine then fails when it reads
`monthlyResults[term - 1].totalAmount`. The model returns
`Failure(NoFinalMonth(term))` in that case.

## Model

| member | source | states |
|---|---|---|
| Rates.MonthlyRate | services/calculationService.tsx:11-27 | agrees with a lookup in the term/rate table with fallback 1%; a supported term t earns t/300 per month, any other term earns exactly the fallback; the rate is in (0, 0.04] |
| Rates.MonthlyRateGrowsWithSupportedTerm | components/calculator.tsx:125-128 | among the supported terms the term options advertise (3, 6, 9, 12 months at 1-4% a month), a longer term never earns a lower monthly rate |
| Rates.FeeRate | services/calculationService.tsx:29-39 | agrees with the first-matching-tier lookup in the fee table; each rate is returned exactly on its tier's capital interval (both directions), so 1000, 10000 and 35000 take the higher rate |
| Rates.TierRateNonIncreasing | services/calculationService.tsx:31-39 | for any tier table with strictly ascending bounds, strictly descending rates and every tier rate above the top-bracket rate, the looked-up rate never rises as the capital grows |
| Rates.FeeRateNonIncreasing | services/calculationService.tsx:31-39 | more capital never pays a higher fee rate |
| Rates.FeeRateBounds | services/calculationService.tsx:31-39 | every fee rate lies between 0.25% and 2% |
| Schedule.Balance | services/calculationService.tsx:70-71 | with non-negative capital and rate, the running balance never drops below the capital |
| Schedule.RowCount | services/calculationService.tsx:46 | definition: the number of iterations of the loop `month = 1..term`, i.e. term for a term of at least 1 and 0 otherwise; `BuildMonthlyRows` proves the engine's `month <= term` loop emits exactly that many rows |
| Schedule.SimpleRow | services/calculationService.tsx:54-64 | definition of month m's simple row (basis = the original capital, profit = capital*rate, accumulated = profit*m, total = capital + accumulated); its property, that each month adds exactly capital*rate, is `SimpleRowStep`'s contract |
| Schedule.CompoundRow | services/calculationService.tsx:70-80 | month m's compound row: basis = Balance(m-1), total = Balance(m), the month's profit is what the balance gained (total - basis), and accumulated = Balance(m) - capital |
| Schedule.RowAt | services/calculationService.tsx:49-81 | the `=== "simple"` branch: in both modes profit = basis*rate and total = capital + accumulated; the basis is the original capital in simple mode and the running balance Balance(m-1) in compound mode |
| Schedule.MonthlyRows | services/calculationService.tsx:42-46 | there are exactly term rows (none for a term below 1), and row i is month i+1 |
| Schedule.BuildMonthlyRows | services/calculationService.tsx:41-82 | the engine's loop, which advances the balance only in compound mode and reads the basis from row month-2, yields exactly the rows the per-month definitions give |
| Schedule.TotalIsCapitalPlusAccumulated | services/calculationService.tsx:54-79 | in both modes every row's total equals the original capital plus its accumulated profit |
| Schedule.SimpleRowsLinear | services/calculationService.tsx:54-64 | simple mode: every row's basis is the original capital, the monthly profit is capital*rate in every row, accumulated = profit*month, total = capital + capital*rate*month, and each total exceeds the previous one by capital*rate |
| Schedule.CompoundRowsChain | services/calculationService.tsx:70-80 | compound mode: row 1's basis is the capital, each later row's basis is the previous row's total, profit = basis*rate, total = basis + profit, accumulated = total - capital |
| Schedule.CompoundRowGrowth | services/calculationService.tsx:70-71 | a compound month ends at its basis times (1+rate) |
| Schedule.CompoundRowsGrowth | services/calculationService.tsx:70-80 | compound mode: month 1 ends at capital*(1+rate), and every later month ends at the previous month's total times (1+rate) |
| Schedule.BalanceClosedForm | services/calculationService.tsx:70-71 | the balance after n months equals capital*(1+rate)^n |
| Schedule.CompoundTotalClosedForm | services/calculationService.tsx:70-79 | compound mode: the total of month m equals capital*(1+rate)^m |
| Schedule.CompoundTotalStrictlyIncreasing | services/calculationService.tsx:70-79 | compound mode with positive capital and rate: the totals strictly increase from month to month |
| Schedule.SimpleRowStep | services/calculationService.tsx:54-56 | one more month of simple interest adds exactly capital*rate to the total |
| Schedule.SimpleTotalAtLeastCapital | services/calculationService.tsx:54-56 | with non-negative capital and rate, a simple-interest total is never below the capital |
| Schedule.SimpleTotalAtMostBalance | services/calculationService.tsx:54-71 | with non-negative capital and rate, the simple-interest total of month m never exceeds the compound balance after m months |
| Schedule.CompoundAtLeastSimple | services/calculationService.tsx:54-79 | with non-negative capital and rate, a compound row's total is never below the simple row's total for the same month |
| Calculation.Simulate | services/calculationService.tsx:6-98 | fails exactly when the term is below 1; otherwise it echoes capital, term and mode, holds exactly the term rows of the projection at the term's rate, takes the gross from the last row, and net + fee = gross exactly |
| Calculation.FeeDeduction | services/calculationService.tsx:84-96 | the fee amount is the reported fee percentage of the gross amount, and the net amount is gross*(1 - feeRate/100) |
| Calculation.CalculateReturns | services/calculationService.tsx:6-98 | the statement sequence (switch, if-chain, loop, last-row read, fee deduction) returns the same result as the functional engine |
| Calculation.ReportedRates | services/calculationService.tsx:88-93 | the reported monthly percentage is term/3 for a supported term and 1 otherwise; the reported fee percentage is 2, 1, 0.5 or 0.25 according to the capital tier |
| Calculation.SimpleGross | services/calculationService.tsx:54-84 | simple mode: gross = capital*(1 + rate*term) |
| Calculation.CompoundGross | services/calculationService.tsx:70-84 | compound mode: gross = capital*(1+rate)^term |
| Calculation.GrossAtLeastCapital | services/calculationService.tsx:54-84 | with non-negative capital, the gross amount is never below the capital in either mode |
| Calculation.AmountsPositive | services/calculationService.tsx:84-86 | with positive capital, 0 < fee < net < gross |
| Calculation.CompoundResultsIncreasing | services/calculationService.tsx:70-84 | compound mode with positive capital: the reported month totals strictly increase |
| Calculation.FeePercentNonIncreasing | services/calculationService.tsx:31-93 | more capital never reports a higher fee percentage |
| Calculation.ScenarioSimple1000 | test/calculationService.spec.tsx:6-34 | (1000, 3, simple): rates 1 and 2 percent, rows 1010/1020/1030, gross 1030, fee 20.6, net 1009.4 |
| Calculation.ScenarioCompound1000 | test/calculationService.spec.tsx:38-79 | (1000, 3, compound): rows 1010/1020.1/1030.301 with bases 1000/1010/1020.1, gross 1030.301, fee 20.60602, net 1009.69498 |
| Calculation.ScenarioRatesAndTiers | test/calculationService.spec.tsx:82-124 | terms 3/6/9/12 report 1/2/3/4 percent; capitals 1000/5000/20000/40000 report fee 2/1/0.5/0.25 percent |
| Calculation.ScenarioUnsupportedTerm | services/calculationService.tsx:25-26 | an unsupported term (5) is accepted, earns 1 percent and yields 5 rows |
| Calculation.ScenarioZeroTerm | services/calculationService.tsx:84 | a term of 0 reaches no final month and yields the error result |

## Left out

- Floating point: the engine computes with IEEE-754 doubles, and its tests compare with a tolerance. The model uses exact `real` arithmetic and does not reproduce rounding.
- Non-integer or NaN terms: the engine's `term` is a JavaScript number. The model takes an integer term, since the calling form always passes `parseInt` of a fixed option.
- Benefit mode strings: the engine only tests `=== "simple"`, and any other string takes the compound branch. The model uses a closed two-constructor type, `Simple | Compound`.
- The failure for a term below 1 is a JavaScript `TypeError` thrown while reading a property of `undefined`. The model returns `Failure(NoFinalMonth(term))` instead.
- Capital is not validated. Any real is accepted, as in the engine. A sign condition on the capital appears only in the contracts that need one: `AmountsPositive`, `GrossAtLeastCapital`, `SimpleTotalAtLeastCapital`, the strict-growth lemmas, the simple-versus-compound comparison (`SimpleTotalAtMostBalance`, `CompoundAtLeastSimple`) and the lower bound in `Balance`'s contract.
- Idempotence gets no lemma. `Simulate` is a function, so equal inputs give equal results by construction.
- Strict growth of the compound totals needs a positive capital as well as a positive rate. With a negative capital the totals decrease, and with zero capital they stay constant. The strict-growth lemmas require `0 < capital`.
- The payment service (HTTP calls to a remote API) is not part of this model. Neither is the spreadsheet export (an external library plus `toFixed(2)` formatting).
- The calculator form, the results table, the QR and payment-status components and the home route are presentation code and are not modelled.
