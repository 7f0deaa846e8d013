/**
 * The compound-interest projection inside `calculateAndDisplay`: input
 * validation, normalisation of rate, contribution and horizon to monthly
 * units, the month-by-month recurrence and the totals shown after it.
 * Amounts are exact reals; the JavaScript code uses doubles.
 */
module Projection {
  import opened Wrappers

  /** The unit of the interest-rate and contribution selects. */
  datatype Period = Monthly | Yearly

  /** The unit of the time select. */
  datatype TimeUnit = Months | Years

  /** The three parallel arrays handed to the chart: month labels, accumulated values, invested totals. */
  datatype Series = Series(labels: seq<int>, accumulated: seq<real>, invested: seq<real>)

  /** The three totals of the results panel. */
  datatype Summary = Summary(finalValue: real, totalInvested: real, totalInterest: real)

  /** Rate, contribution and horizon after conversion to monthly units. A `None` horizon is JavaScript's NaN. */
  datatype Normalized = Normalized(monthlyRate: real, monthlyContribution: real, totalMonths: Option<int>)

  /** The message of the single error the calculation raises. */
  const InvalidInputMessage: string :=
    "Preencha os campos de Taxa de Juros e Tempo com valores válidos maiores que zero."

  // ---------------------------------------------------------------------------
  // Validation
  // ---------------------------------------------------------------------------

  /**
   * The calculation stops with an error when the parsed rate is not positive,
   * the time field is empty, or `parseFloat` of the time field is a number
   * that is not positive. A time text that `parseFloat` turns into NaN
   * (`timeValue == None`) is not rejected: NaN <= 0 is false.
   */
  predicate Rejected(ratePercent: real, timeText: string, timeValue: Option<real>): (b: bool)
    ensures ratePercent <= 0.0 ==> b
    ensures timeText == [] ==> b
    ensures timeValue.Some? && timeValue.value <= 0.0 ==> b
    ensures ratePercent > 0.0 && timeText != [] && timeValue.None? ==> !b
    ensures ratePercent > 0.0 && timeText != [] && timeValue.Some? && timeValue.value > 0.0 ==> !b
  {
    ratePercent <= 0.0 || timeText == [] || (timeValue.Some? && timeValue.value <= 0.0)
  }

  // ---------------------------------------------------------------------------
  // Normalisation
  // ---------------------------------------------------------------------------

  /**
   * Converts the entered rate (a percentage), contribution and horizon to
   * monthly units. `parsedTime` is `parseInt` of the time field (`None` for
   * NaN) and `twelfthRoot` stands for `x => Math.pow(x, 1/12)`.
   */
  function Normalize(ratePercent: real, contribution: real, parsedTime: Option<int>,
                     interestPeriod: Period, contributionPeriod: Period, timeUnit: TimeUnit,
                     twelfthRoot: real -> real): (n: Normalized)
    ensures interestPeriod == Monthly ==> n.monthlyRate == ratePercent / 100.0
    ensures interestPeriod == Yearly ==> n.monthlyRate + 1.0 == twelfthRoot(1.0 + ratePercent / 100.0)
    ensures contributionPeriod == Monthly ==> n.monthlyContribution == contribution
    ensures contributionPeriod == Yearly ==> 12.0 * n.monthlyContribution == contribution
    ensures n.totalMonths.Some? <==> parsedTime.Some?
    ensures parsedTime.Some? && timeUnit == Months ==> n.totalMonths.value == parsedTime.value
    ensures parsedTime.Some? && timeUnit == Years ==> n.totalMonths.value == 12 * parsedTime.value
  {
    var rate := ratePercent / 100.0;
    var monthlyRate := if interestPeriod == Yearly then twelfthRoot(1.0 + rate) - 1.0 else rate;
    var monthlyContribution := if contributionPeriod == Yearly then contribution / 12.0 else contribution;
    var totalMonths :=
      match parsedTime
      case None => None
      case Some(t) => Some(if timeUnit == Years then t * 12 else t);
    Normalized(monthlyRate, monthlyContribution, totalMonths)
  }

  // ---------------------------------------------------------------------------
  // The recurrence, as functions
  // ---------------------------------------------------------------------------

  /** x raised to a natural power. */
  function Pow(x: real, n: nat): real {
    if n == 0 then 1.0 else x * Pow(x, n - 1)
  }

  /** The accumulated value recorded at month `m`: growth, then the deposit, once per elapsed month. */
  function Accumulated(pv: real, rate: real, contribution: real, m: nat): real {
    if m == 0 then pv else Accumulated(pv, rate, contribution, m - 1) * (1.0 + rate) + contribution
  }

  /** The invested total recorded at month `m`: one deposit per elapsed month. */
  function Invested(pv: real, contribution: real, m: nat): real {
    if m == 0 then pv else Invested(pv, contribution, m - 1) + contribution
  }

  /** How many points the loop `for (month = 0; month <= totalMonths; month++)` records. */
  function PointCount(totalMonths: Option<int>): nat {
    match totalMonths
    case None => 0
    case Some(n) => if n >= 0 then n + 1 else 0
  }

  /** How many growth-and-deposit steps the loop applies: one fewer than the points, and none when there are none. */
  function StepCount(totalMonths: Option<int>): nat {
    if PointCount(totalMonths) == 0 then 0 else PointCount(totalMonths) - 1
  }

  /** The series the loop records for the given monthly terms. */
  function Trajectory(pv: real, rate: real, contribution: real, totalMonths: Option<int>): (s: Series)
    ensures |s.labels| == |s.accumulated| == |s.invested| == PointCount(totalMonths)
  {
    var k := PointCount(totalMonths);
    Series(seq(k, i => i),
           seq(k, i requires 0 <= i => Accumulated(pv, rate, contribution, i)),
           seq(k, i requires 0 <= i => Invested(pv, contribution, i)))
  }

  /** The totals shown after the loop, taken from the running values it leaves behind. */
  function SummaryAfter(pv: real, rate: real, contribution: real, totalMonths: Option<int>): Summary {
    var finalValue := Accumulated(pv, rate, contribution, StepCount(totalMonths));
    var totalInvested := Invested(pv, contribution, StepCount(totalMonths));
    Summary(finalValue, totalInvested, finalValue - totalInvested)
  }

  // ---------------------------------------------------------------------------
  // The recurrence, as the source runs it
  // ---------------------------------------------------------------------------

  /**
   * The loop of `calculateAndDisplay`: for each month from 0 while
   * `month <= totalMonths` (false for NaN), record the month and the running
   * values, then, unless this is the last month, grow the accumulated value
   * and add the contribution to both running values.
   */
  method Project(pv: real, rate: real, contribution: real, totalMonths: Option<int>)
      returns (series: Series, futureValue: real, totalInvested: real)
    ensures series == Trajectory(pv, rate, contribution, totalMonths)
    ensures futureValue == Accumulated(pv, rate, contribution, StepCount(totalMonths))
    ensures totalInvested == Invested(pv, contribution, StepCount(totalMonths))
  {
    ghost var steps := StepCount(totalMonths);
    // `month <= NaN` is false, so a NaN horizon behaves like a last month of -1.
    var last := if totalMonths.Some? then totalMonths.value else -1;
    var labels: seq<int> := [];
    var accumulated: seq<real> := [];
    var invested: seq<real> := [];
    futureValue, totalInvested := pv, pv;
    var month := 0;
    while month <= last
      invariant 0 <= month <= PointCount(totalMonths)
      invariant labels == seq(month, i => i)
      invariant accumulated == seq(month, i requires 0 <= i => Accumulated(pv, rate, contribution, i))
      invariant invested == seq(month, i requires 0 <= i => Invested(pv, contribution, i))
      invariant futureValue == Accumulated(pv, rate, contribution, Min(month, steps))
      invariant totalInvested == Invested(pv, contribution, Min(month, steps))
      decreases last - month
    {
      labels := labels + [month];
      accumulated := accumulated + [futureValue];
      invested := invested + [totalInvested];
      if month < last {
        assert Min(month, steps) == month && Min(month + 1, steps) == month + 1;
        futureValue := futureValue * (1.0 + rate);
        futureValue := futureValue + contribution;
        totalInvested := totalInvested + contribution;
      } else {
        assert Min(month + 1, steps) == Min(month, steps);
      }
      month := month + 1;
    }
    series := Series(labels, accumulated, invested);
  }

  function Min(a: nat, b: nat): nat {
    if a <= b then a else b
  }

  // ---------------------------------------------------------------------------
  // Properties of the series
  // ---------------------------------------------------------------------------

  /** The first point is month 0, where both series equal the principal. */
  lemma TrajectoryStartsAtPrincipal(pv: real, rate: real, contribution: real, totalMonths: Option<int>)
    requires PointCount(totalMonths) > 0
    ensures var s := Trajectory(pv, rate, contribution, totalMonths);
      s.labels[0] == 0 && s.accumulated[0] == pv && s.invested[0] == pv
  {
  }

  /** A valid horizon of n months gives n + 1 points labelled 0, 1, ..., n in increasing order. */
  lemma TrajectoryLabels(pv: real, rate: real, contribution: real, n: nat)
    ensures var s := Trajectory(pv, rate, contribution, Some(n));
      |s.labels| == n + 1 &&
      (forall i :: 0 <= i <= n ==> s.labels[i] == i) &&
      (forall i, j :: 0 <= i < j <= n ==> s.labels[i] < s.labels[j])
  {
  }

  /** Each recorded step is growth followed by the deposit, on both series. */
  lemma TrajectoryStep(pv: real, rate: real, contribution: real, totalMonths: Option<int>, m: nat)
    requires m + 1 < PointCount(totalMonths)
    ensures var s := Trajectory(pv, rate, contribution, totalMonths);
      s.accumulated[m + 1] == s.accumulated[m] * (1.0 + rate) + contribution &&
      s.invested[m + 1] == s.invested[m] + contribution
  {
  }

  /** The invested total grows linearly: the principal plus one contribution per elapsed month. */
  lemma {:induction false} InvestedClosedForm(pv: real, contribution: real, m: nat)
    ensures Invested(pv, contribution, m) == pv + (m as real) * contribution
  {
    if m > 0 {
      InvestedClosedForm(pv, contribution, m - 1);
    }
  }

  /**
   * The accumulated value agrees with the annuity formula
   * pv * q^m + c * (q^m - 1) / r with q = 1 + r, written without the division
   * so that it also covers r = 0.
   */
  lemma {:induction false} AccumulatedClosedForm(pv: real, rate: real, contribution: real, m: nat)
    ensures rate * Accumulated(pv, rate, contribution, m)
         == (pv * rate + contribution) * Pow(1.0 + rate, m) - contribution
  {
    if m > 0 {
      var q := 1.0 + rate;
      var k := pv * rate + contribution;
      var prev := Accumulated(pv, rate, contribution, m - 1);
      var p := Pow(q, m - 1);
      AccumulatedClosedForm(pv, rate, contribution, m - 1);
      assert rate * prev == k * p - contribution;
      assert Accumulated(pv, rate, contribution, m) == prev * q + contribution;
      assert Pow(q, m) == q * p;
      calc {
        rate * (prev * q + contribution);
        q * (rate * prev) + rate * contribution;
        q * (k * p - contribution) + rate * contribution;
        k * (q * p) - contribution;
      }
    }
  }

  /** With no contribution, the principal simply compounds: pv * (1 + r)^m. */
  lemma {:induction false} CompoundingWithoutContribution(pv: real, rate: real, m: nat)
    ensures Accumulated(pv, rate, 0.0, m) == pv * Pow(1.0 + rate, m)
  {
    if m > 0 {
      CompoundingWithoutContribution(pv, rate, m - 1);
      assert Accumulated(pv, rate, 0.0, m) == (pv * Pow(1.0 + rate, m - 1)) * (1.0 + rate);
    }
  }

  /** At a zero rate nothing is earned: the accumulated value is the invested total. */
  lemma {:induction false} ZeroRateEarnsNothing(pv: real, contribution: real, m: nat)
    ensures Accumulated(pv, 0.0, contribution, m) == Invested(pv, contribution, m)
  {
    if m > 0 {
      ZeroRateEarnsNothing(pv, contribution, m - 1);
    }
  }

  /** With non-negative principal, rate and contribution the accumulated value never goes negative. */
  lemma {:induction false} AccumulatedNonNegative(pv: real, rate: real, contribution: real, m: nat)
    requires pv >= 0.0 && rate >= 0.0 && contribution >= 0.0
    ensures Accumulated(pv, rate, contribution, m) >= 0.0
  {
    if m > 0 {
      var prev := Accumulated(pv, rate, contribution, m - 1);
      AccumulatedNonNegative(pv, rate, contribution, m - 1);
      assert prev * (1.0 + rate) >= 0.0;
    }
  }

  /** One step never decreases either series when principal, rate and contribution are non-negative. */
  lemma StepNonDecreasing(pv: real, rate: real, contribution: real, m: nat)
    requires pv >= 0.0 && rate >= 0.0 && contribution >= 0.0
    ensures Accumulated(pv, rate, contribution, m) <= Accumulated(pv, rate, contribution, m + 1)
    ensures Invested(pv, contribution, m) <= Invested(pv, contribution, m + 1)
  {
    var prev := Accumulated(pv, rate, contribution, m);
    AccumulatedNonNegative(pv, rate, contribution, m);
    assert prev * rate >= 0.0;
    assert prev * (1.0 + rate) == prev + prev * rate;
  }

  /** Both series are non-decreasing over months when principal, rate and contribution are non-negative. */
  lemma {:induction false} SeriesNonDecreasing(pv: real, rate: real, contribution: real, i: nat, j: nat)
    requires pv >= 0.0 && rate >= 0.0 && contribution >= 0.0
    requires i <= j
    ensures Accumulated(pv, rate, contribution, i) <= Accumulated(pv, rate, contribution, j)
    ensures Invested(pv, contribution, i) <= Invested(pv, contribution, j)
    decreases j - i
  {
    if i < j {
      StepNonDecreasing(pv, rate, contribution, i);
      SeriesNonDecreasing(pv, rate, contribution, i + 1, j);
    }
  }

  /** With non-negative principal, rate and contribution the accumulated value covers what was invested. */
  lemma {:induction false} AccumulatedCoversInvested(pv: real, rate: real, contribution: real, m: nat)
    requires pv >= 0.0 && rate >= 0.0 && contribution >= 0.0
    ensures Accumulated(pv, rate, contribution, m) >= Invested(pv, contribution, m)
  {
    if m > 0 {
      var prev := Accumulated(pv, rate, contribution, m - 1);
      AccumulatedCoversInvested(pv, rate, contribution, m - 1);
      AccumulatedNonNegative(pv, rate, contribution, m - 1);
      assert prev * rate >= 0.0;
      assert prev * (1.0 + rate) == prev + prev * rate;
    }
  }

  /** A positive rate on a positive principal earns interest from the first month on. */
  lemma InterestPositive(pv: real, rate: real, contribution: real, m: nat)
    requires pv > 0.0 && rate > 0.0 && contribution >= 0.0 && m >= 1
    ensures Accumulated(pv, rate, contribution, m) > Invested(pv, contribution, m)
  {
    var prev := Accumulated(pv, rate, contribution, m - 1);
    SeriesNonDecreasing(pv, rate, contribution, 0, m - 1);
    AccumulatedCoversInvested(pv, rate, contribution, m - 1);
    assert prev * rate > 0.0;
    assert prev * (1.0 + rate) == prev + prev * rate;
  }

  /** Every recorded point of a non-negative projection is ordered: both series rise and the accumulated one stays on top. */
  lemma TrajectoryMonotone(pv: real, rate: real, contribution: real, totalMonths: Option<int>, i: nat, j: nat)
    requires pv >= 0.0 && rate >= 0.0 && contribution >= 0.0
    requires i <= j < PointCount(totalMonths)
    ensures var s := Trajectory(pv, rate, contribution, totalMonths);
      s.accumulated[i] <= s.accumulated[j] && s.invested[i] <= s.invested[j] &&
      s.accumulated[j] >= s.invested[j]
  {
    SeriesNonDecreasing(pv, rate, contribution, i, j);
    AccumulatedCoversInvested(pv, rate, contribution, j);
  }

  // ---------------------------------------------------------------------------
  // The summary
  // ---------------------------------------------------------------------------

  /**
   * The totals agree with the last recorded point, and the interest is their
   * difference. When no point is recorded (a NaN or negative month count)
   * the totals are the principal and no interest.
   */
  lemma SummaryMatchesLastPoint(pv: real, rate: real, contribution: real, totalMonths: Option<int>)
    ensures var s := Trajectory(pv, rate, contribution, totalMonths);
      var sum := SummaryAfter(pv, rate, contribution, totalMonths);
      sum.totalInterest == sum.finalValue - sum.totalInvested &&
      (|s.labels| > 0 ==>
         sum.finalValue == s.accumulated[|s.accumulated| - 1] &&
         sum.totalInvested == s.invested[|s.invested| - 1]) &&
      (|s.labels| == 0 ==> sum == Summary(pv, pv, 0.0))
  {
  }

  /** The total invested is the principal plus one contribution per step taken. */
  lemma SummaryInvestedClosedForm(pv: real, rate: real, contribution: real, totalMonths: Option<int>)
    ensures SummaryAfter(pv, rate, contribution, totalMonths).totalInvested
         == pv + (StepCount(totalMonths) as real) * contribution
  {
    InvestedClosedForm(pv, contribution, StepCount(totalMonths));
  }

  /** With non-negative principal, rate and contribution the interest shown is never negative. */
  lemma SummaryInterestNonNegative(pv: real, rate: real, contribution: real, totalMonths: Option<int>)
    requires pv >= 0.0 && rate >= 0.0 && contribution >= 0.0
    ensures SummaryAfter(pv, rate, contribution, totalMonths).totalInterest >= 0.0
  {
    AccumulatedCoversInvested(pv, rate, contribution, StepCount(totalMonths));
  }

  // ---------------------------------------------------------------------------
  // Properties of the normalisation
  // ---------------------------------------------------------------------------

  /** 0 < x <= 1 keeps every power of x within (0, 1]. */
  lemma {:induction false} PowAtMostOne(x: real, n: nat)
    requires 0.0 < x <= 1.0
    ensures 0.0 < Pow(x, n) <= 1.0
  {
    if n > 0 {
      PowAtMostOne(x, n - 1);
      assert x * Pow(x, n - 1) <= 1.0 * Pow(x, n - 1);
    }
  }

  lemma {:induction false} PowAdd(x: real, a: nat, b: nat)
    ensures Pow(x, a + b) == Pow(x, a) * Pow(x, b)
  {
    if a > 0 {
      PowAdd(x, a - 1, b);
      assert Pow(x, a + b) == x * (Pow(x, a - 1) * Pow(x, b));
    }
  }

  /** Raising to the power 12 * b is raising to 12, then to b. */
  lemma {:induction false} PowTwelveTimes(x: real, b: nat)
    ensures Pow(x, 12 * b) == Pow(Pow(x, 12), b)
  {
    if b > 0 {
      PowTwelveTimes(x, b - 1);
      PowAdd(x, 12, 12 * (b - 1));
      assert 12 * b == 12 + 12 * (b - 1);
    }
  }

  /**
   * The yearly-to-monthly conversion keeps a positive rate positive: when
   * `root` is the positive twelfth root of 1 + y and y > 0, the monthly rate
   * root - 1 is positive.
   */
  lemma YearlyRatePositive(yearlyRate: real, root: real)
    requires yearlyRate > 0.0 && root > 0.0
    requires Pow(root, 12) == 1.0 + yearlyRate
    ensures root - 1.0 > 0.0
  {
    if root <= 1.0 {
      PowAtMostOne(root, 12);
    }
  }

  /**
   * Compounding 12 * k months at the converted monthly rate gives what k years
   * at the yearly rate give, when `root` is a twelfth root of 1 + y.
   */
  lemma YearlyRateEquivalence(pv: real, yearlyRate: real, root: real, years: nat)
    requires Pow(root, 12) == 1.0 + yearlyRate
    ensures Accumulated(pv, root - 1.0, 0.0, 12 * years) == pv * Pow(1.0 + yearlyRate, years)
  {
    CompoundingWithoutContribution(pv, root - 1.0, 12 * years);
    assert 1.0 + (root - 1.0) == root;
    PowTwelveTimes(root, years);
  }

  /** Twelve monthly shares of a yearly contribution add up to the yearly amount. */
  lemma YearlyContributionOverOneYear(pv: real, yearlyContribution: real)
    ensures Invested(pv, yearlyContribution / 12.0, 12) == pv + yearlyContribution
  {
    InvestedClosedForm(pv, yearlyContribution / 12.0, 12);
  }

  /** A horizon in years yields a point for every month of it: 12 * t + 1 points. */
  lemma YearsHorizonPoints(ratePercent: real, contribution: real, t: nat,
                           interestPeriod: Period, contributionPeriod: Period, twelfthRoot: real -> real)
    ensures var n := Normalize(ratePercent, contribution, Some(t), interestPeriod, contributionPeriod, Years, twelfthRoot);
      PointCount(n.totalMonths) == 12 * t + 1
  {
  }

  // ---------------------------------------------------------------------------
  // Worked examples
  // ---------------------------------------------------------------------------

  /** 1000 at 1% a month with no contribution for two months: 1000, 1010, 1020.1; interest 20.1. */
  lemma ExampleTwoMonthsAtOnePercent()
    ensures var n := Normalize(1.0, 0.0, Some(2), Monthly, Monthly, Months, x => x);
      var s := Trajectory(1000.0, n.monthlyRate, n.monthlyContribution, n.totalMonths);
      s.labels == [0, 1, 2] &&
      s.accumulated == [1000.0, 1010.0, 1020.1] &&
      s.invested == [1000.0, 1000.0, 1000.0] &&
      SummaryAfter(1000.0, n.monthlyRate, n.monthlyContribution, n.totalMonths).totalInterest == 20.1
  {
    var s := Trajectory(1000.0, 0.01, 0.0, Some(2));
    assert s.accumulated[2] == Accumulated(1000.0, 0.01, 0.0, 2);
  }

  /** Growth comes before the deposit: 0 principal, 100 a month at 0.5% gives 100, 200.5, 301.5025. */
  lemma ExampleGrowthBeforeDeposit()
    ensures Accumulated(0.0, 0.005, 100.0, 1) == 100.0
    ensures Accumulated(0.0, 0.005, 100.0, 2) == 200.5
    ensures Accumulated(0.0, 0.005, 100.0, 3) == 301.5025
  {
  }
}
