/** The bounded random walk that both the store's simulator and the
    transport's fallback simulator take one step of per interval tick. The
    two copies in the source are the same expression; it is defined once here.
    The `Math.random()` results a step consumes are parameters. */
module RandomWalk {
  import opened Numbers

  /** The three `Math.random()` values one metric's step may draw: the base
      change, the gate deciding whether a rare spike is added, and the spike.
      (The spike is drawn only when the gate passes; otherwise it is unused.) */
  datatype Draws = Draws(base: real, gate: real, spike: real)

  /** What `Math.random()` returns: a value in [0, 1). */
  ghost predicate Uniform(d: Draws)
  {
    0.0 <= d.base < 1.0 && 0.0 <= d.gate < 1.0 && 0.0 <= d.spike < 1.0
  }

  const MinHeartRate: real := 40.0
  const MaxHeartRate: real := 120.0
  const MinTemperature: real := 15.0
  const MaxTemperature: real := 40.0

  /** The heart-rate change: uniform in [-2, 2), plus, when the gate exceeds
      0.9, a spike uniform in [-5, 5). */
  function HeartRateChange(d: Draws): real
  {
    (d.base * 4.0 - 2.0) + (if d.gate > 0.9 then d.spike * 10.0 - 5.0 else 0.0)
  }

  /** The temperature change: uniform in [-0.2, 0.2), plus, when the gate
      exceeds 0.95, a spike uniform in [-1, 1). */
  function TemperatureChange(d: Draws): real
  {
    (d.base * 0.4 - 0.2) + (if d.gate > 0.95 then d.spike * 2.0 - 1.0 else 0.0)
  }

  lemma HeartRateChangeBounded(d: Draws)
    requires Uniform(d)
    ensures -7.0 <= HeartRateChange(d) <= 7.0
  {
  }

  lemma TemperatureChangeBounded(d: Draws)
    requires Uniform(d)
    ensures -1.2 <= TemperatureChange(d) <= 1.2
  {
  }

  /** `Math.round(Math.max(40, Math.min(120, last + change)))`. */
  function NextHeartRate(last: int, d: Draws): (hr: int)
    ensures 40 <= hr <= 120
  {
    Round(Clamp(MinHeartRate, MaxHeartRate, last as real + HeartRateChange(d)))
  }

  /** `parseFloat(Math.max(15, Math.min(40, last + change)).toFixed(1))`, in
      tenths of a degree. */
  function NextTemperature(lastTenths: int, d: Draws): (t: int)
    ensures 150 <= t <= 400
  {
    RoundTenths(Clamp(MinTemperature, MaxTemperature, lastTenths as real / 10.0 + TemperatureChange(d)))
  }

  /** From a heart rate inside [40, 120], one step moves at most 7 bpm. */
  lemma HeartRateStepBounded(last: int, d: Draws)
    requires 40 <= last <= 120 && Uniform(d)
    ensures -7 <= NextHeartRate(last, d) - last <= 7
  {
    HeartRateChangeBounded(d);
    ClampStep(MinHeartRate, MaxHeartRate, last as real, HeartRateChange(d), 7.0);
  }

  /** From a temperature inside [15, 40], one step moves at most 1.2 degrees. */
  lemma TemperatureStepBounded(lastTenths: int, d: Draws)
    requires 150 <= lastTenths <= 400 && Uniform(d)
    ensures -12 <= NextTemperature(lastTenths, d) - lastTenths <= 12
  {
    TemperatureChangeBounded(d);
    var last := lastTenths as real / 10.0;
    ClampStep(MinTemperature, MaxTemperature, last, TemperatureChange(d), 1.2);
    assert 10.0 * last == lastTenths as real;
  }
}
