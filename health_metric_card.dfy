/** The metric card (`HealthMetricCard.tsx`): the width of the value bar
    and the label of the status badge. */
module HealthMetricCard {
  import opened Numbers
  import opened SensorData

  /** The bar width: a whole percentage, or `NaN` when the expression
      divides zero by zero. */
  datatype Width = Percent(p: int) | NotANumber

  /** `Math.max(0, Math.min(100, p))` on an integer. */
  function ClampPercent(p: int): (r: int)
    ensures 0 <= r <= 100
    ensures 0 <= p <= 100 ==> r == p
  {
    if p < 0 then 0 else if p > 100 then 100 else p
  }

  /** `Math.round(((value - min) / (max - min)) * 100)` clamped to [0, 100].
      With `max == min` the quotient is +Infinity above `min` (clamped to
      100), -Infinity below it (clamped to 0) and NaN at `min`, which the
      clamp passes through. */
  function Percentage(value: real, min: real, max: real): (w: Width)
    ensures w.NotANumber? <==> value == min == max
    ensures w.Percent? ==> 0 <= w.p <= 100
  {
    if max == min then
      (if value > min then Percent(100) else if value < min then Percent(0) else NotANumber)
    else
      Percent(ClampPercent(Round((value - min) / (max - min) * 100.0)))
  }

  /** At or below the bottom of the scale the bar is empty; at or above the
      top it is full. */
  lemma PercentageEnds(value: real, min: real, max: real)
    requires max > min
    ensures value <= min ==> Percentage(value, min, max) == Percent(0)
    ensures value >= max ==> Percentage(value, min, max) == Percent(100)
  {
    QuotientBounds(value - min, max - min);
  }

  lemma QuotientBounds(a: real, d: real)
    requires d > 0.0
    ensures a <= 0.0 ==> a / d <= 0.0
    ensures a >= d ==> a / d >= 1.0
    ensures 0.0 <= a <= d ==> 0.0 <= a / d <= 1.0
  {
    var q := a / d;
    assert q * d == a;
  }

  /** Inside the scale the clamp changes nothing: the width is the rounded
      percentage itself. */
  lemma PercentageInsideScale(value: real, min: real, max: real)
    requires min <= value <= max && min < max
    ensures Percentage(value, min, max) == Percent(Round((value - min) / (max - min) * 100.0))
  {
    QuotientBounds(value - min, max - min);
  }

  /** A larger value never gives a narrower bar. */
  lemma PercentageMonotone(v1: real, v2: real, min: real, max: real)
    requires max > min && v1 <= v2
    ensures Percentage(v1, min, max).p <= Percentage(v2, min, max).p
  {
    var d := max - min;
    assert (v1 - min) / d <= (v2 - min) / d;
    RoundMonotone((v1 - min) / d * 100.0, (v2 - min) / d * 100.0);
  }

  /** The badge text of `statusConfig[status].text`. */
  function StatusLabel(s: Status): (text: string)
    ensures text == "Normal" <==> s == Normal
    ensures text == "Low" <==> s == Low
    ensures text == "High" <==> s == High
  {
    match s
    case Normal => "Normal"
    case Low => "Low"
    case High => "High"
  }
}
