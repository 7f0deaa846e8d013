/**
 * The x-axis tick callbacks of the projection chart. Labels are month
 * numbers. With the time in years only whole years are labelled, as the
 * year count followed by `a` (anos); otherwise every month is labelled as
 * the month number followed by `m` (meses).
 */
module AxisTicks {
  import opened Wrappers

  /** Which tick callback is installed on the chart's x axis. */
  datatype TickMode = MonthTicks | YearTicks

  predicate IsDigit(c: char) {
    '0' <= c <= '9'
  }

  predicate AllDigits(s: string) {
    forall i :: 0 <= i < |s| ==> IsDigit(s[i])
  }

  function DigitChar(d: nat): (c: char)
    requires d < 10
    ensures IsDigit(c)
  {
    "0123456789"[d]
  }

  function DigitValue(c: char): nat
    requires IsDigit(c)
  {
    (c as int) - ('0' as int)
  }

  /** The decimal text JavaScript gives a non-negative integer when it is concatenated with a string. */
  function DecimalText(n: nat): (s: string)
    ensures |s| >= 1 && AllDigits(s)
    ensures |s| > 1 ==> s[0] != '0'
  {
    if n < 10 then [DigitChar(n)] else DecimalText(n / 10) + [DigitChar(n % 10)]
  }

  /** The number a text of decimal digits denotes. */
  function DigitsValue(s: string): nat
    requires AllDigits(s)
  {
    if s == [] then 0 else 10 * DigitsValue(s[..|s| - 1]) + DigitValue(s[|s| - 1])
  }

  /** Reading back the decimal text of a number gives the number. */
  lemma {:induction false} DecimalTextRoundTrip(n: nat)
    ensures DigitsValue(DecimalText(n)) == n
  {
    var s := DecimalText(n);
    if n < 10 {
      assert s[..|s| - 1] == [];
    } else {
      DecimalTextRoundTrip(n / 10);
      assert s[..|s| - 1] == DecimalText(n / 10);
    }
  }

  /**
   * The tick text for the point labelled `month`, or `None` when the tick is
   * hidden (the callback returns null).
   */
  function TickLabel(mode: TickMode, month: nat): Option<string> {
    match mode
    case YearTicks => if month % 12 == 0 then Some(DecimalText(month / 12) + "a") else None
    case MonthTicks => Some(DecimalText(month) + "m")
  }

  /**
   * Which ticks show, and what they show: in month mode every month, read
   * back as its month number with the suffix `m`; in year mode exactly the
   * multiples of 12, read back as the number of whole years with the suffix `a`.
   */
  lemma TickLabelMeaning(mode: TickMode, month: nat)
    ensures mode == MonthTicks ==> TickLabel(mode, month).Some?
    ensures mode == YearTicks ==> (TickLabel(mode, month).Some? <==> month % 12 == 0)
    ensures TickLabel(mode, month).Some? ==>
      var t := TickLabel(mode, month).value;
      |t| >= 2 && AllDigits(t[..|t| - 1]) &&
      t[|t| - 1] == (if mode == YearTicks then 'a' else 'm') &&
      DigitsValue(t[..|t| - 1]) * (if mode == YearTicks then 12 else 1) == month
  {
    if TickLabel(mode, month).Some? {
      var t := TickLabel(mode, month).value;
      var n := if mode == YearTicks then month / 12 else month;
      assert t[..|t| - 1] == DecimalText(n);
      DecimalTextRoundTrip(n);
    }
  }

  /** Two different labels never show the same tick text. */
  lemma TickLabelsDistinct(mode: TickMode, a: nat, b: nat)
    requires a != b && TickLabel(mode, a).Some? && TickLabel(mode, b).Some?
    ensures TickLabel(mode, a).value != TickLabel(mode, b).value
  {
    TickLabelMeaning(mode, a);
    TickLabelMeaning(mode, b);
  }

  /** Over a horizon of `years` years, the year ticks shown are 0a, 1a, ..., one per whole year. */
  lemma YearTicksOverHorizon(years: nat, month: nat)
    requires month <= 12 * years
    ensures TickLabel(YearTicks, month).Some? <==> exists k :: 0 <= k <= years && month == 12 * k
  {
    if month % 12 == 0 {
      assert month == 12 * (month / 12);
    }
  }

  lemma ExampleTicks()
    ensures TickLabel(YearTicks, 24) == Some("2a")
    ensures TickLabel(YearTicks, 13) == None
    ensures TickLabel(MonthTicks, 13) == Some("13m")
  {
    assert DigitChar(1) == '1' && DigitChar(2) == '2' && DigitChar(3) == '3';
    assert DecimalText(2) == "2";
    assert DecimalText(13) == DecimalText(1) + "3" == "13";
    assert DecimalText(24 / 12) + "a" == "2a";
    assert DecimalText(13) + "m" == "13m";
  }
}
