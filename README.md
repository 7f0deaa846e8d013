# Compound-interest projection of the `calculadora-juros` calculator page

The calculator page takes a principal, an interest rate (entered as a
percentage, per month or per year), a periodic contribution (per month or per
year) and a horizon (in months or years). When the button is clicked,
`calculateAndDisplay` validates the rate and the time field, converts the
three inputs to monthly terms, runs a month-by-month loop that records the
accumulated value and the invested total for every month from 0 to the
horizon, and shows the final value, the total invested and the interest
earned. The chart's x axis labels either every month (`13m`) or only whole
years (`2a`).

This project models that calculation in Dafny, with amounts as exact `real`s:

- `wrappers.dfy` — `Option` (JavaScript's NaN is `None`) and `Result`.
- `masked_value.dfy` — module `MaskedValue`: the text sanitiser of
  `parseMaskedValue`. All `.` are removed and the first `,` becomes the decimal
  point. Dot removal is characterised by character counts and by
  distributing over concatenation. Comma replacement is characterised point by
  point. The sanitised text has exactly one decimal point when the input had a
  comma, and none otherwise.
- `projection.dfy` — module `Projection`: validation (`Rejected`),
  normalisation (`Normalize`), the recurrence as functions (`Accumulated`,
  `Invested`, `Trajectory`, `SummaryAfter`) and as the loop the page runs
  (`Project`, proved equal to them). Lemmas cover the series' length,
  first point and step rule, closed forms for both series, monotonicity,
  accumulated ≥ invested, the summary against the last point, and the
  yearly-to-monthly rate and contribution conversions.
- `axis_ticks.dfy` — module `AxisTicks`: the two tick callbacks, with the
  decimal text of a month or year count and its round trip.
- `calculator.dfy` — module `Calculator`: `Expected` is the whole calculation
  as a function of the form and the JavaScript built-ins. `Calculate` computes
  it with the loop. Class `Page` holds what the page updates in place (chart
  labels and data, tick callback, results panel). Its constructor is
  `initializeChart` and `CalculateAndDisplay` does the success or error update.

Behaviour the model follows from the code:

- The rate is a percentage: it is divided by 100 before use.
- Validation reads the time field with `parseFloat`, but the month count uses
  `parseInt`. A time such as `0.5` passes validation and gives a one-point
  series (`FractionalTimeGivesOnePoint`).
- A time text that `parseFloat` reads as NaN is not rejected, because
  `NaN <= 0` is false. A time text that `parseInt` reads as NaN (such as `.5`)
  makes the loop record no point at all; the totals are then the principal and
  zero interest (`UnreadableTimeGivesEmptySeries`). Neither is a NaN error.
- On error the chart's labels and data are emptied, but the x-axis tick
  callback keeps its previous setting.

## Model

| member | source | states |
|---|---|---|
| `MaskedValue.RemoveDots` | public/assets/js/main.js:75 | the result holds no `.`, and every other character occurs as often as in the input |
| `MaskedValue.RemoveDotsAppend` | public/assets/js/main.js:75 | removing dots acts character by character: it distributes over concatenation |
| `MaskedValue.RemoveDotsNoDots` | public/assets/js/main.js:75 | a text without dots is left unchanged |
| `MaskedValue.ReplaceFirstComma` | public/assets/js/main.js:75 | same length; the character at i becomes `.` exactly when it is a comma with no comma before it, otherwise it is kept |
| `MaskedValue.ReplaceFirstCommaAfterPrefix` | public/assets/js/main.js:75 | a comma-free prefix is kept and only the rest is affected: only the first comma is replaced |
| `MaskedValue.ReplaceFirstCommaCounts` | public/assets/js/main.js:75 | one `.` more and one `,` fewer when there is a comma; all other characters are kept with their counts |
| `MaskedValue.CountPositiveIffIn` | public/assets/js/main.js:75 | a character's count is positive exactly when it occurs in the text |
| `MaskedValue.SanitizeSeparators` | public/assets/js/main.js:75 | the sanitised text has exactly one `.` if the input had a comma and none otherwise; it keeps all but the first comma; other characters keep their counts |
| `MaskedValue.SanitizePlainDigits` | public/assets/js/main.js:75 | a text with no `.` and no `,` is passed to `parseFloat` unchanged |
| `MaskedValue.Sanitize` | public/assets/js/main.js:75 | defines the text given to `parseFloat`: dots removed, then the first comma made `.`; the result contains a `.` exactly when the input contains a comma |
| `MaskedValue.ParseMaskedValue` | public/assets/js/main.js:73-77 | an empty text gives 0; a sanitised text that `parseFloat` reads as NaN gives 0; otherwise the parsed value |
| `Projection.Rejected` | public/assets/js/main.js:85-87 | defines the error condition: a rate ≤ 0, an empty time text, or a time that parses to a number ≤ 0 each reject; with a positive rate and a non-empty time, a time parsed as NaN or as a positive number is accepted |
| `Projection.Normalize` | public/assets/js/main.js:89-101 | monthly rate is the percentage / 100, or the twelfth root of 1 + that, minus 1, when yearly; a yearly contribution is divided by 12; a horizon in years is multiplied by 12; a NaN horizon stays NaN |
| `Projection.Accumulated` | public/assets/js/main.js:106-116 | defines the accumulated value at month m: the principal at month 0, then the previous value times (1 + rate) plus the contribution |
| `Projection.Invested` | public/assets/js/main.js:107-117 | defines the invested total at month m: the principal at month 0, then the previous total plus the contribution |
| `Projection.PointCount` | public/assets/js/main.js:109 | defines how many times `month <= totalMonths` holds from month 0: horizon + 1 for a horizon ≥ 0, none for a negative or NaN horizon |
| `Projection.StepCount` | public/assets/js/main.js:109-118 | defines how many growth-and-deposit steps the loop applies (the `month < totalMonths` update): PointCount − 1, that is the horizon when it is ≥ 0, and 0 when no point is recorded (negative or NaN horizon) |
| `Projection.SummaryAfter` | public/assets/js/main.js:121 | defines the totals from the running values after the last step: final value, total invested, and interest as their difference |
| `Projection.Trajectory` | public/assets/js/main.js:103-112 | the labels, accumulated and invested series all have the loop's point count (horizon + 1, or 0 for a NaN or negative horizon) |
| `Projection.Project` | public/assets/js/main.js:103-119 | the loop records exactly the trajectory series; the running values it leaves are the accumulated value and invested total after the last step |
| `Projection.TrajectoryStartsAtPrincipal` | public/assets/js/main.js:106-112 | the first point is month 0, with accumulated and invested both equal to the principal |
| `Projection.TrajectoryLabels` | public/assets/js/main.js:109-110 | a horizon of n months gives n + 1 labels, label i being i, in strictly increasing order |
| `Projection.TrajectoryStep` | public/assets/js/main.js:114-118 | each point follows the previous by growth then deposit: acc' = acc·(1+r)+c and inv' = inv+c |
| `Projection.InvestedClosedForm` | public/assets/js/main.js:107-117 | invested at month m is pv + m·c |
| `Projection.AccumulatedClosedForm` | public/assets/js/main.js:106-116 | r·acc(m) = (pv·r + c)(1+r)^m − c, the annuity formula without division |
| `Projection.CompoundingWithoutContribution` | public/assets/js/main.js:115-116 | with no contribution, acc(m) = pv·(1+r)^m |
| `Projection.ZeroRateEarnsNothing` | public/assets/js/main.js:114-118 | at rate 0 the accumulated series equals the invested series |
| `Projection.AccumulatedNonNegative` | public/assets/js/main.js:106-116 | non-negative principal, rate and contribution keep the accumulated value non-negative |
| `Projection.StepNonDecreasing` | public/assets/js/main.js:114-118 | one step never lowers either series (non-negative inputs) |
| `Projection.SeriesNonDecreasing` | public/assets/js/main.js:109-119 | for i ≤ j both series at i are at most their values at j (non-negative inputs) |
| `Projection.AccumulatedCoversInvested` | public/assets/js/main.js:114-118 | accumulated ≥ invested at every month (non-negative inputs) |
| `Projection.InterestPositive` | public/assets/js/main.js:114-121 | a positive rate on a positive principal gives accumulated > invested from month 1 on |
| `Projection.TrajectoryMonotone` | public/assets/js/main.js:109-119 | on the recorded points both series are non-decreasing and accumulated ≥ invested (non-negative inputs) |
| `Projection.SummaryMatchesLastPoint` | public/assets/js/main.js:121 | final value and total invested are the last point's values and interest is their difference; with no point they are pv, pv and 0 |
| `Projection.SummaryInvestedClosedForm` | public/assets/js/main.js:107-121 | total invested = pv + steps·c |
| `Projection.SummaryInterestNonNegative` | public/assets/js/main.js:121 | the interest shown is non-negative for non-negative inputs |
| `Projection.PowAtMostOne` | public/assets/js/main.js:94 | powers of x in (0, 1] stay in (0, 1] (used for the rate conversion) |
| `Projection.PowAdd` | public/assets/js/main.js:94 | x^(a+b) = x^a · x^b |
| `Projection.PowTwelveTimes` | public/assets/js/main.js:94 | x^(12b) = (x^12)^b |
| `Projection.YearlyRatePositive` | public/assets/js/main.js:93-95 | a positive yearly rate converts to a positive monthly rate when the root is a true positive twelfth root |
| `Projection.YearlyRateEquivalence` | public/assets/js/main.js:93-95 | 12·k months at the converted monthly rate compound like k years at the yearly rate |
| `Projection.YearlyContributionOverOneYear` | public/assets/js/main.js:96-98 | twelve monthly shares of a yearly contribution add up to the yearly amount |
| `Projection.YearsHorizonPoints` | public/assets/js/main.js:99-110 | t years give 12·t + 1 points |
| `Projection.ExampleTwoMonthsAtOnePercent` | public/assets/js/main.js:89-121 | 1000 at 1% a month for 2 months: 1000, 1010, 1020.1; interest 20.1 |
| `Projection.ExampleGrowthBeforeDeposit` | public/assets/js/main.js:114-117 | 0 principal, 100 a month at 0.5%: 100, 200.5, 301.5025 (growth before deposit) |
| `AxisTicks.DecimalText` | public/assets/js/main.js:151-157 | the text of a number is non-empty, all digits, and has no leading zero |
| `AxisTicks.DecimalTextRoundTrip` | public/assets/js/main.js:151-157 | reading back the decimal text gives the number |
| `AxisTicks.TickLabel` | public/assets/js/main.js:146-158 | defines the tick text: in year mode the year count then `a` for multiples of 12 and nothing otherwise; in month mode the month then `m` |
| `AxisTicks.TickLabelMeaning` | public/assets/js/main.js:146-158 | month mode shows every label as its number then `m`; year mode shows exactly the multiples of 12, as the year count then `a` |
| `AxisTicks.TickLabelsDistinct` | public/assets/js/main.js:146-158 | two different labels never show the same tick text |
| `AxisTicks.YearTicksOverHorizon` | public/assets/js/main.js:146-154 | over k years the shown year ticks are exactly the months 12·j for j = 0..k |
| `AxisTicks.ExampleTicks` | public/assets/js/main.js:146-158 | month 24 shows `2a` and month 13 is hidden in year mode; month 13 shows `13m` in month mode |
| `Calculator.PresentValue` | public/assets/js/main.js:81 | defines the principal as `parseMaskedValue` of the principal field's unmasked text |
| `Calculator.RatePercent` | public/assets/js/main.js:82 | defines the rate percentage as `parseMaskedValue` of the rate field's unmasked text |
| `Calculator.Contribution` | public/assets/js/main.js:83 | defines the contribution as `parseMaskedValue` of the contribution field's unmasked text |
| `Calculator.TicksFor` | public/assets/js/main.js:146-159 | defines the tick callback installed after a calculation: year ticks for a time in years, month ticks otherwise |
| `Calculator.NormalizedTerms` | public/assets/js/main.js:89-101 | the monthly terms of the form: `Normalize` of the parsed rate and contribution, of `parseInt(time, 10)` of the time text, and of the three period and unit selects |
| `Calculator.Expected` | public/assets/js/main.js:79-121 | defines the whole calculation: the fixed error message when `Rejected`, otherwise the trajectory, the totals after the loop and the tick mode for the normalised terms |
| `Calculator.Calculate` | public/assets/js/main.js:79-121 | the computation produces exactly `Expected`: the error, or the series, totals and tick mode |
| `Calculator.FailsExactlyOnInvalidInput` | public/assets/js/main.js:85-87 | the calculation fails, with the one fixed message, exactly when the rate is ≤ 0, the time text is empty, or it parses to a number ≤ 0 |
| `Calculator.SuccessfulCalculation` | public/assets/js/main.js:103-121 | a successful run has horizon + 1 points, starts at (0, pv, pv), and its totals are the last point's values and their difference |
| `Calculator.FractionalTimeGivesOnePoint` | public/assets/js/main.js:85-91 | a time in (0, 1) that `parseInt` truncates to 0 passes validation and gives one point and no interest |
| `Calculator.UnreadableTimeGivesEmptySeries` | public/assets/js/main.js:91-121 | a valid run whose time `parseInt` reads as NaN has no points, and totals pv, pv and 0 |
| `Calculator.MonthlyRateProjectionOrdered` | public/assets/js/main.js:89-121 | with a monthly rate and non-negative principal and contribution, both chart lines never fall, accumulated ≥ invested, and interest ≥ 0 |
| `Calculator.YearlyRateProjectionOrdered` | public/assets/js/main.js:89-121 | with a yearly rate whose supplied twelfth root of 1 + rate is at least 1, and non-negative principal and contribution, both chart lines never fall, accumulated ≥ invested, and interest ≥ 0 |
| `Calculator.ExampleWholeCalculation` | public/assets/js/main.js:81-121 | principal 1000, 1% a month, no contribution, 2 months: series (0,1000,1000), (1,1010,1000), (2,1020.1,1000), totals 1020.1, 1000, 20.1 |
| `Calculator.Page.constructor` | public/assets/js/main.js:33-71 | the chart starts with no labels or data, month ticks, and the waiting panel |
| `Calculator.Page.CalculateAndDisplay` | public/assets/js/main.js:79-171 | on success the chart holds the series, the tick mode follows the time unit, and the panel shows the totals; on error the chart is emptied, its ticks are kept, and the panel shows the message |

## Left out

- DOM reads and writes, event wiring and the HTML of the results panel: the page's form is the `Form` value. The panel is the `Panel` value.
- IMask input masks: the model starts from their unmasked text and assumes it is in Brazilian format (`.` for thousands, `,` for decimals). What format IMask actually gives is not part of this model. If it used `.` as the decimal mark, the dot removal would also delete the decimal point.
- Chart.js construction, destruction and `update()`: only the labels, data and tick callback the code assigns are modelled.
- `toFixed(2)` on each recorded point and `toLocaleString('pt-BR')` formatting: the recorded points are the running values, unrounded.
- Floating point in general: amounts are exact reals, so double rounding and overflow are not modelled. The horizon is an unbounded integer too, and the caller bounds it. In the page, `parseInt` of a very long digit string gives Infinity, which passes validation and keeps `month <= totalMonths` true forever. Any very large horizon runs out of memory before the loop ends.
- `parseFloat`, `parseInt` and `Math.pow(x, 1/12)`: they are parameters (`Builtins`); their behaviour on particular texts is not modelled.
- Projection.YearlyRatePositive: holds only when the supplied twelfth root is exact and positive. An irrational root has no exact `real` value, so this is an assumption about `Math.pow`.
- Projection.YearlyRateEquivalence: holds under the same assumption about the supplied root.
- Calculator.YearlyRateProjectionOrdered: requires the supplied twelfth root of 1 + rate to be at least 1, because `Math.pow` is a parameter here. A true twelfth root of a number above 1 satisfies this (`Projection.YearlyRatePositive`).
- Projection.SeriesNonDecreasing: also requires a non-negative principal. With a negative principal, growth makes the accumulated value fall.
- Selects: any value other than `yearly` (or `years`) behaves as monthly (or months). The model's two-valued `Period` and `TimeUnit` capture exactly that.
- Tick text for labels of 10^21 or more: JavaScript switches to exponent notation there; `DecimalText` always gives plain digits.
- `console.error` logging of the error.
