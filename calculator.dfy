/**
 * `calculateAndDisplay`: reads the form, validates it, runs the projection
 * and hands the series to the chart and the totals to the results panel;
 * on invalid input it shows the error and empties the chart.
 */
module Calculator {
  import opened Wrappers
  import opened Projection
  import MaskedValue
  import AxisTicks

  /**
   * What the page holds when the button is clicked: the unmasked text of the
   * three masked fields, the raw text of the time field and the three selects.
   */
  datatype Form = Form(
    presentValueText: string,
    interestRateText: string,
    contributionText: string,
    timeText: string,
    interestPeriod: Period,
    contributionPeriod: Period,
    timeUnit: TimeUnit)

  /**
   * The JavaScript built-ins the calculation calls: `parseFloat` and
   * `parseInt(_, 10)` (`None` for NaN) and `x => Math.pow(x, 1/12)`.
   */
  datatype Builtins = Builtins(
    parseFloat: string -> Option<real>,
    parseInt: string -> Option<int>,
    twelfthRoot: real -> real)

  /** What a successful calculation hands to the chart and the results panel. */
  datatype Projected = Projected(series: Series, summary: Summary, ticks: AxisTicks.TickMode)

  /** What the results panel shows. */
  datatype Panel = Waiting | Totals(summary: Summary) | ErrorBox(message: string)

  /** The principal, rate percentage and contribution read from the masked fields. */
  function PresentValue(form: Form, lib: Builtins): real {
    MaskedValue.ParseMaskedValue(form.presentValueText, lib.parseFloat)
  }

  function RatePercent(form: Form, lib: Builtins): real {
    MaskedValue.ParseMaskedValue(form.interestRateText, lib.parseFloat)
  }

  function Contribution(form: Form, lib: Builtins): real {
    MaskedValue.ParseMaskedValue(form.contributionText, lib.parseFloat)
  }

  /** The tick callback installed for the time unit. */
  function TicksFor(unit: TimeUnit): AxisTicks.TickMode {
    if unit == Years then AxisTicks.YearTicks else AxisTicks.MonthTicks
  }

  /** The monthly terms of the form: the parsed rate and contribution, and `parseInt` of the time text, normalised. */
  function NormalizedTerms(form: Form, lib: Builtins): Normalized {
    Normalize(RatePercent(form, lib), Contribution(form, lib), lib.parseInt(form.timeText),
              form.interestPeriod, form.contributionPeriod, form.timeUnit, lib.twelfthRoot)
  }

  /** What the calculation produces for a form: the error, or the series, totals and tick mode. */
  function Expected(form: Form, lib: Builtins): Result<Projected, string> {
    if Rejected(RatePercent(form, lib), form.timeText, lib.parseFloat(form.timeText)) then
      Err(InvalidInputMessage)
    else
      var pv := PresentValue(form, lib);
      var n := NormalizedTerms(form, lib);
      Ok(Projected(Trajectory(pv, n.monthlyRate, n.monthlyContribution, n.totalMonths),
                   SummaryAfter(pv, n.monthlyRate, n.monthlyContribution, n.totalMonths),
                   TicksFor(form.timeUnit)))
  }

  /** The computation of `calculateAndDisplay`, without the display. */
  method Calculate(form: Form, lib: Builtins) returns (r: Result<Projected, string>)
    ensures r == Expected(form, lib)
  {
    var pv := MaskedValue.ParseMaskedValue(form.presentValueText, lib.parseFloat);
    var ir := MaskedValue.ParseMaskedValue(form.interestRateText, lib.parseFloat);
    var contribution := MaskedValue.ParseMaskedValue(form.contributionText, lib.parseFloat);

    if Rejected(ir, form.timeText, lib.parseFloat(form.timeText)) {
      return Err(InvalidInputMessage);
    }

    var n := Normalize(ir, contribution, lib.parseInt(form.timeText),
                       form.interestPeriod, form.contributionPeriod, form.timeUnit, lib.twelfthRoot);
    var series, futureValue, totalInvested := Project(pv, n.monthlyRate, n.monthlyContribution, n.totalMonths);
    var totalInterest := futureValue - totalInvested;
    r := Ok(Projected(series, Summary(futureValue, totalInvested, totalInterest), TicksFor(form.timeUnit)));
  }

  // ---------------------------------------------------------------------------
  // Properties of the whole calculation
  // ---------------------------------------------------------------------------

  /**
   * The calculation fails, with the one error message, exactly when the rate
   * is not positive, the time field is empty, or the time field parses to a
   * number that is not positive.
   */
  lemma FailsExactlyOnInvalidInput(form: Form, lib: Builtins)
    ensures Expected(form, lib).Err? <==>
      RatePercent(form, lib) <= 0.0 || form.timeText == [] ||
      (lib.parseFloat(form.timeText).Some? && lib.parseFloat(form.timeText).value <= 0.0)
    ensures Expected(form, lib).Err? ==> Expected(form, lib).error == InvalidInputMessage
  {
  }

  /**
   * A successful calculation records one point per month from 0 to the
   * horizon, starts at the principal, and its totals are the last point's
   * values and their difference.
   */
  lemma SuccessfulCalculation(form: Form, lib: Builtins, t: nat)
    requires Expected(form, lib).Ok?
    requires lib.parseInt(form.timeText) == Some(t)
    ensures var p := Expected(form, lib).value;
      var months := if form.timeUnit == Years then 12 * t else t;
      var pv := PresentValue(form, lib);
      |p.series.labels| == |p.series.accumulated| == |p.series.invested| == months + 1 &&
      p.series.labels[0] == 0 && p.series.accumulated[0] == pv && p.series.invested[0] == pv &&
      p.series.labels[months] == months &&
      p.summary.finalValue == p.series.accumulated[months] &&
      p.summary.totalInvested == p.series.invested[months] &&
      p.summary.totalInterest == p.summary.finalValue - p.summary.totalInvested
  {
    var n := NormalizedTerms(form, lib);
    SummaryMatchesLastPoint(PresentValue(form, lib), n.monthlyRate, n.monthlyContribution, n.totalMonths);
  }

  /**
   * A time text that `parseFloat` reads as a positive fraction below one
   * (such as "0.5") passes validation, yet `parseInt` truncates it to 0 and
   * the series is the single point of month 0.
   */
  lemma FractionalTimeGivesOnePoint(form: Form, lib: Builtins)
    requires RatePercent(form, lib) > 0.0 && form.timeText != []
    requires lib.parseFloat(form.timeText).Some? && 0.0 < lib.parseFloat(form.timeText).value < 1.0
    requires lib.parseInt(form.timeText) == Some(0)
    ensures Expected(form, lib).Ok?
    ensures |Expected(form, lib).value.series.labels| == 1
    ensures Expected(form, lib).value.summary.totalInterest == 0.0
  {
  }

  /**
   * A time text that passes validation but that `parseInt` cannot read (NaN,
   * such as ".5") makes the loop record no point at all; the totals are then
   * the principal and no interest.
   */
  lemma UnreadableTimeGivesEmptySeries(form: Form, lib: Builtins)
    requires Expected(form, lib).Ok?
    requires lib.parseInt(form.timeText).None?
    ensures Expected(form, lib).value.series == Series([], [], [])
    ensures var pv := PresentValue(form, lib);
      Expected(form, lib).value.summary == Summary(pv, pv, 0.0)
  {
  }

  /**
   * With non-negative principal and contribution and a monthly rate, the
   * chart's two lines never fall and the accumulated line stays on or above
   * the invested one; the interest shown is never negative.
   */
  lemma MonthlyRateProjectionOrdered(form: Form, lib: Builtins, i: nat, j: nat)
    requires Expected(form, lib).Ok? && form.interestPeriod == Monthly
    requires PresentValue(form, lib) >= 0.0 && Contribution(form, lib) >= 0.0
    requires i <= j < |Expected(form, lib).value.series.labels|
    ensures var s := Expected(form, lib).value.series;
      s.accumulated[i] <= s.accumulated[j] && s.invested[i] <= s.invested[j] &&
      s.accumulated[j] >= s.invested[j]
    ensures Expected(form, lib).value.summary.totalInterest >= 0.0
  {
    var n := NormalizedTerms(form, lib);
    var pv := PresentValue(form, lib);
    TrajectoryMonotone(pv, n.monthlyRate, n.monthlyContribution, n.totalMonths, i, j);
    SummaryInterestNonNegative(pv, n.monthlyRate, n.monthlyContribution, n.totalMonths);
  }

  /**
   * The same order for a yearly rate, once the supplied twelfth root of
   * 1 + rate is at least 1, that is, once the converted monthly rate is not
   * negative.
   */
  lemma YearlyRateProjectionOrdered(form: Form, lib: Builtins, i: nat, j: nat)
    requires Expected(form, lib).Ok? && form.interestPeriod == Yearly
    requires lib.twelfthRoot(1.0 + RatePercent(form, lib) / 100.0) >= 1.0
    requires PresentValue(form, lib) >= 0.0 && Contribution(form, lib) >= 0.0
    requires i <= j < |Expected(form, lib).value.series.labels|
    ensures var s := Expected(form, lib).value.series;
      s.accumulated[i] <= s.accumulated[j] && s.invested[i] <= s.invested[j] &&
      s.accumulated[j] >= s.invested[j]
    ensures Expected(form, lib).value.summary.totalInterest >= 0.0
  {
    var n := NormalizedTerms(form, lib);
    var pv := PresentValue(form, lib);
    TrajectoryMonotone(pv, n.monthlyRate, n.monthlyContribution, n.totalMonths, i, j);
    SummaryInterestNonNegative(pv, n.monthlyRate, n.monthlyContribution, n.totalMonths);
  }

  /**
   * A principal of 1000 at 1% a month with no contribution for 2 months,
   * through the whole calculation: points 1000, 1010 and 1020.1, interest 20.1.
   */
  lemma ExampleWholeCalculation(form: Form, lib: Builtins)
    requires PresentValue(form, lib) == 1000.0 && RatePercent(form, lib) == 1.0 && Contribution(form, lib) == 0.0
    requires form.interestPeriod == Monthly && form.contributionPeriod == Monthly && form.timeUnit == Months
    requires form.timeText != [] && lib.parseFloat(form.timeText) == Some(2.0) && lib.parseInt(form.timeText) == Some(2)
    ensures Expected(form, lib).Ok?
    ensures Expected(form, lib).value.series == Series([0, 1, 2], [1000.0, 1010.0, 1020.1], [1000.0, 1000.0, 1000.0])
    ensures Expected(form, lib).value.summary == Summary(1020.1, 1000.0, 20.1)
    ensures Expected(form, lib).value.ticks == AxisTicks.MonthTicks
  {
    var n := NormalizedTerms(form, lib);
    assert n == Normalized(0.01, 0.0, Some(2));
    ExampleTwoMonthsAtOnePercent();
  }

  // ---------------------------------------------------------------------------
  // The page: chart data, tick callback and results panel
  // ---------------------------------------------------------------------------

  /**
   * The state `calculateAndDisplay` writes: the chart's labels and two data
   * arrays, the x-axis tick callback, and the results panel.
   */
  class Page {
    var labels: seq<int>
    var accumulatedData: seq<real>
    var investedData: seq<real>
    var ticks: AxisTicks.TickMode
    var panel: Panel

    /** `initializeChart`: empty chart, month ticks, and the panel waiting for a calculation. */
    constructor ()
      ensures labels == [] && accumulatedData == [] && investedData == []
      ensures ticks == AxisTicks.MonthTicks && panel == Waiting
    {
      labels, accumulatedData, investedData := [], [], [];
      ticks := AxisTicks.MonthTicks;
      panel := Waiting;
    }

    /**
     * On success the chart shows the new series with the tick callback for
     * the time unit and the panel shows the totals; on error the panel shows
     * the message, the chart's labels and data are emptied and its tick
     * callback is left as it was.
     */
    method CalculateAndDisplay(form: Form, lib: Builtins)
      modifies this
      ensures Expected(form, lib).Ok? ==>
        var p := Expected(form, lib).value;
        labels == p.series.labels && accumulatedData == p.series.accumulated &&
        investedData == p.series.invested && ticks == p.ticks && panel == Totals(p.summary)
      ensures Expected(form, lib).Err? ==>
        labels == [] && accumulatedData == [] && investedData == [] &&
        ticks == old(ticks) && panel == ErrorBox(Expected(form, lib).error)
    {
      var r := Calculate(form, lib);
      match r {
        case Ok(p) =>
          panel := Totals(p.summary);
          labels, accumulatedData, investedData := p.series.labels, p.series.accumulated, p.series.invested;
          ticks := p.ticks;
        case Err(message) =>
          panel := ErrorBox(message);
          labels, accumulatedData, investedData := [], [], [];
      }
    }
  }
}
