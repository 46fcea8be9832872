/** The chart's data preparation (`ChartComponent.tsx`): the time-range
    table, the time-window filter over the history, and the assembly of the
    datasets and axis scales that are handed to the charting library. */
module Chart {
  import opened Options
  import opened SensorData

  /** The five ranges the pages offer. */
  datatype TimeRange = OneMinute | FiveMinutes | FifteenMinutes | OneHour | OneDay
  {
    function Label(): string
    {
      match this
      case OneMinute => "1m"
      case FiveMinutes => "5m"
      case FifteenMinutes => "15m"
      case OneHour => "1h"
      case OneDay => "24h"
    }

    function Minutes(): nat
    {
      match this
      case OneMinute => 1
      case FiveMinutes => 5
      case FifteenMinutes => 15
      case OneHour => 60
      case OneDay => 24 * 60
    }
  }

  /** `getTimeRangeInMs` on the `timeRange` prop; an unknown label falls
      back to five minutes. */
  function TimeRangeMs(range: string): (ms: int)
    ensures ms > 0 && ms % 60000 == 0
  {
    match range
    case "1m" => 60 * 1000
    case "5m" => 5 * 60 * 1000
    case "15m" => 15 * 60 * 1000
    case "1h" => 60 * 60 * 1000
    case "24h" => 24 * 60 * 60 * 1000
    case _ => 5 * 60 * 1000
  }

  /** Each offered range lasts the number of minutes its label names, and any
      other label means five minutes. */
  lemma TimeRangeMsTable(range: string)
    ensures forall r: TimeRange :: TimeRangeMs(r.Label()) == r.Minutes() * 60000
    ensures (forall r: TimeRange :: range != r.Label()) ==> TimeRangeMs(range) == 300000
  {
    if forall r: TimeRange :: range != r.Label() {
      assert range != OneMinute.Label() && range != FiveMinutes.Label();
      assert range != FifteenMinutes.Label() && range != OneHour.Label() && range != OneDay.Label();
    }
  }

  predicate InWindow(s: Sample, now: int, rangeMs: int)
  {
    now - s.timestamp <= rangeMs
  }

  /** `a` is `b` with some elements left out, the rest in the same order. */
  ghost predicate Subsequence(a: seq<Sample>, b: seq<Sample>)
    decreases |b|
  {
    if a == [] then true
    else if b == [] then false
    else (a[0] == b[0] && Subsequence(a[1..], b[1..])) || Subsequence(a, b[1..])
  }

  /** `historicalData.filter(data => currentTime - data.timestamp <= timeRangeMs)`:
      the samples in the window, and only those, in history order. */
  function Window(history: seq<Sample>, now: int, rangeMs: int): (r: seq<Sample>)
    ensures |r| <= |history|
    ensures forall i :: 0 <= i < |r| ==> InWindow(r[i], now, rangeMs)
    ensures forall i :: 0 <= i < |history| && InWindow(history[i], now, rangeMs) ==> history[i] in r
    ensures Subsequence(r, history)
  {
    if history == [] then []
    else
      var rest := Window(history[1..], now, rangeMs);
      assert forall i :: 1 <= i < |history| ==> history[i] == history[1..][i - 1];
      if InWindow(history[0], now, rangeMs) then [history[0]] + rest
      else
        assert rest == [] || Subsequence(rest, history[1..]);
        rest
  }

  /** The window keeps every in-window sample as many times as the history
      holds it, and no other sample. */
  lemma {:induction false} WindowCounts(history: seq<Sample>, now: int, rangeMs: int)
    ensures forall x ::
              multiset(Window(history, now, rangeMs))[x] == if InWindow(x, now, rangeMs) then multiset(history)[x] else 0
    decreases |history|
  {
    if history != [] {
      var tail := history[1..];
      WindowCounts(tail, now, rangeMs);
      assert history == [history[0]] + tail;
      assert multiset(history) == multiset([history[0]]) + multiset(tail);
      if InWindow(history[0], now, rangeMs) {
        assert Window(history, now, rangeMs) == [history[0]] + Window(tail, now, rangeMs);
        assert multiset(Window(history, now, rangeMs)) ==
          multiset([history[0]]) + multiset(Window(tail, now, rangeMs));
      } else {
        assert Window(history, now, rangeMs) == Window(tail, now, rangeMs);
      }
    }
  }

  /** Every sample no older than a sample in the window is in it too. */
  lemma {:induction false} WindowKeepsAll(history: seq<Sample>, now: int, rangeMs: int)
    requires Chronological(history)
    requires history != [] && InWindow(history[0], now, rangeMs)
    ensures Window(history, now, rangeMs) == history
    decreases |history|
  {
    if |history| > 1 {
      var tail := history[1..];
      assert Chronological(tail) by {
        forall i, j | 0 <= i < j < |tail| ensures tail[i].timestamp <= tail[j].timestamp {
          assert tail[i] == history[i + 1] && tail[j] == history[j + 1];
        }
      }
      assert history[0].timestamp <= history[1].timestamp;
      WindowKeepsAll(tail, now, rangeMs);
    }
  }

  /** Over a history in time order, the window is a suffix of the history:
      the chart shows the most recent samples up to the newest. */
  lemma {:induction false} WindowIsSuffix(history: seq<Sample>, now: int, rangeMs: int)
    requires Chronological(history)
    ensures exists k :: 0 <= k <= |history| && Window(history, now, rangeMs) == history[k..]
    decreases |history|
  {
    if history == [] {
      assert Window(history, now, rangeMs) == history[0..];
    } else if InWindow(history[0], now, rangeMs) {
      WindowKeepsAll(history, now, rangeMs);
      assert Window(history, now, rangeMs) == history[0..];
    } else {
      var tail := history[1..];
      assert Chronological(tail) by {
        forall i, j | 0 <= i < j < |tail| ensures tail[i].timestamp <= tail[j].timestamp {
          assert tail[i] == history[i + 1] && tail[j] == history[j + 1];
        }
      }
      WindowIsSuffix(tail, now, rangeMs);
      var k :| 0 <= k <= |tail| && Window(tail, now, rangeMs) == tail[k..];
      assert tail[k..] == history[k + 1..];
    }
  }

  datatype ChartType = HeartRateChart | TemperatureChart | CombinedChart

  datatype Point = Point(x: int, y: real)

  datatype AxisId = Y | Y1

  datatype Dataset = Dataset(name: string, points: seq<Point>, axis: AxisId)

  datatype TimeUnit = Minute | Hour

  datatype Axis = Axis(title: string, suggestedMin: int, suggestedMax: int)

  /** The scale options: the time unit of `x`, the `y` axis and, for the
      combined chart only, the right-hand `y1` axis. */
  datatype Scales = Scales(xUnit: TimeUnit, y: Axis, y1: Option<Axis>)

  const HeartRateLabel: string := "Heart Rate (BPM)"
  const TemperatureLabel: string := "Temperature (°C)"

  /** `filteredData.map(data => ({ x: data.timestamp, y: data[metric] }))`. */
  function Points(filtered: seq<Sample>, m: Metric): (ps: seq<Point>)
    ensures |ps| == |filtered|
    ensures forall j :: 0 <= j < |ps| ==> ps[j] == Point(filtered[j].timestamp, Value(filtered[j], m))
  {
    seq(|filtered|, j requires 0 <= j < |filtered| => Point(filtered[j].timestamp, Value(filtered[j], m)))
  }

  predicate ShowsHeartRate(t: ChartType)
  {
    t == HeartRateChart || t == CombinedChart
  }

  predicate ShowsTemperature(t: ChartType)
  {
    t == TemperatureChart || t == CombinedChart
  }

  /** The dataset and scale assembly of the chart effect: push a heart-rate
      dataset, then a temperature dataset, as the chart type asks, and add
      the `y1` scale only for the combined chart. */
  method BuildChart(t: ChartType, range: string, filtered: seq<Sample>) returns (datasets: seq<Dataset>, scales: Scales)
    ensures (exists i :: 0 <= i < |datasets| && datasets[i].name == HeartRateLabel) <==> ShowsHeartRate(t)
    ensures (exists i :: 0 <= i < |datasets| && datasets[i].name == TemperatureLabel) <==> ShowsTemperature(t)
    ensures |datasets| == (if ShowsHeartRate(t) then 1 else 0) + (if ShowsTemperature(t) then 1 else 0)
    ensures ShowsHeartRate(t) ==> datasets[0] == Dataset(HeartRateLabel, Points(filtered, HeartRate), Y)
    ensures forall i :: 0 <= i < |datasets| && datasets[i].name == TemperatureLabel ==>
      datasets[i].points == Points(filtered, Temperature) && (datasets[i].axis == Y1 <==> t == CombinedChart)
    ensures scales.y1.Some? <==> t == CombinedChart
    ensures scales.y1.Some? ==> scales.y1.value == Axis(TemperatureLabel, 15, 40)
    ensures scales.y == if t == TemperatureChart then Axis(TemperatureLabel, 15, 40) else Axis(HeartRateLabel, 40, 120)
    ensures scales.xUnit == Hour <==> range == "24h"
  {
    datasets := [];
    if t == HeartRateChart || t == CombinedChart {
      datasets := datasets + [Dataset(HeartRateLabel, Points(filtered, HeartRate), Y)];
    }
    if t == TemperatureChart || t == CombinedChart {
      datasets := datasets + [Dataset(TemperatureLabel, Points(filtered, Temperature), if t == CombinedChart then Y1 else Y)];
    }
    var y := if t == TemperatureChart then Axis(TemperatureLabel, 15, 40) else Axis(HeartRateLabel, 40, 120);
    scales := Scales(if range == "24h" then Hour else Minute, y, None);
    if t == CombinedChart {
      scales := scales.(y1 := Some(Axis(TemperatureLabel, 15, 40)));
    }
    assert HeartRateLabel != TemperatureLabel by {
      assert HeartRateLabel[0] != TemperatureLabel[0];
    }
    if ShowsHeartRate(t) {
      assert datasets[0].name == HeartRateLabel;
    }
    if ShowsTemperature(t) {
      assert datasets[|datasets| - 1].name == TemperatureLabel;
    }
  }
}
