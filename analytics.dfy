/** The analytics page's read-only views of the history (`Analytics.tsx`):
    per-metric statistics, the exported comma-separated table, the table of
    the five newest samples and its Normal/Alert badge. */
module Analytics {
  import opened Numbers
  import opened Sequences
  import opened SensorData

  /** `historicalData.map(data => data[dataType])`. */
  function Values(history: seq<Sample>, m: Metric): (v: seq<real>)
    ensures |v| == |history|
    ensures forall i :: 0 <= i < |v| ==> v[i] == Value(history[i], m)
  {
    seq(|history|, i requires 0 <= i < |history| => Value(history[i], m))
  }

  /** `Math.min(...v)` for a non-empty `v`. */
  function SeqMin(v: seq<real>): (r: real)
    requires |v| > 0
    ensures r in v
    ensures forall i :: 0 <= i < |v| ==> r <= v[i]
  {
    if |v| == 1 then v[0]
    else
      var rest := SeqMin(v[1..]);
      if v[0] <= rest then v[0] else rest
  }

  /** `Math.max(...v)` for a non-empty `v`. */
  function SeqMax(v: seq<real>): (r: real)
    requires |v| > 0
    ensures r in v
    ensures forall i :: 0 <= i < |v| ==> v[i] <= r
  {
    if |v| == 1 then v[0]
    else
      var rest := SeqMax(v[1..]);
      if v[0] >= rest then v[0] else rest
  }

  /** `v.reduce((a, b) => a + b, 0)`. */
  function Sum(v: seq<real>): real
  {
    if v == [] then 0.0 else Sum(v[..|v| - 1]) + v[|v| - 1]
  }

  /** A sum of values that all lie in [lo, hi] lies between n*lo and n*hi. */
  lemma {:induction false} SumBounds(v: seq<real>, lo: real, hi: real)
    requires forall i :: 0 <= i < |v| ==> lo <= v[i] <= hi
    ensures |v| as real * lo <= Sum(v) <= |v| as real * hi
  {
    if v != [] {
      var init := v[..|v| - 1];
      var m := |init| as real;
      assert forall i :: 0 <= i < |init| ==> init[i] == v[i];
      SumBounds(init, lo, hi);
      assert |v| as real * lo == m * lo + lo;
      assert |v| as real * hi == m * hi + hi;
    }
  }

  /** The mean, before rounding, lies between the minimum and the maximum. */
  lemma MeanBetween(v: seq<real>)
    requires |v| > 0
    ensures SeqMin(v) <= Sum(v) / |v| as real <= SeqMax(v)
  {
    MeanBounds(v, SeqMin(v), SeqMax(v));
  }

  lemma MeanBounds(v: seq<real>, lo: real, hi: real)
    requires |v| > 0
    requires forall i :: 0 <= i < |v| ==> lo <= v[i] <= hi
    ensures lo <= Sum(v) / |v| as real <= hi
  {
    SumBounds(v, lo, hi);
    DivBetween(Sum(v), |v| as real, lo, hi);
  }

  lemma DivBetween(s: real, n: real, lo: real, hi: real)
    requires n > 0.0 && n * lo <= s <= n * hi
    ensures lo <= s / n <= hi
  {
  }

  datatype Stats = Stats(min: real, max: real, avg: real)

  /** `calculateStats`: zeros for an empty history; otherwise the extremes
      and the mean rounded to one decimal. */
  function CalculateStats(history: seq<Sample>, m: Metric): (r: Stats)
    ensures history == [] ==> r == Stats(0.0, 0.0, 0.0)
    ensures history != [] ==>
      && (exists i :: 0 <= i < |history| && r.min == Value(history[i], m))
      && (exists i :: 0 <= i < |history| && r.max == Value(history[i], m))
      && (forall i :: 0 <= i < |history| ==> r.min <= Value(history[i], m) <= r.max)
      && -0.05 <= r.avg - Sum(Values(history, m)) / |history| as real <= 0.05
  {
    if history == [] then Stats(0.0, 0.0, 0.0)
    else
      var v := Values(history, m);
      var mean := Sum(v) / |v| as real;
      var avg := RoundTenths(mean) as real / 10.0;
      assert -0.05 <= avg - mean <= 0.05;
      Stats(SeqMin(v), SeqMax(v), avg)
  }

  const Headers: seq<string> := ["Timestamp", "Heart Rate (BPM)", "Temperature (°C)"]

  /** The fields of one exported row: the ISO timestamp (formatted by the
      given `toISOString`), the heart rate and the temperature. */
  function Row(s: Sample, iso: int -> string): seq<string>
  {
    [iso(s.timestamp), IntToString(s.heartRate), TenthsToString(s.temperatureTenths)]
  }

  /** The lines of the export: the header, then one row per sample in
      history order. */
  function Lines(history: seq<Sample>, iso: int -> string): (lines: seq<string>)
    ensures |lines| == 1 + |history|
    ensures lines[0] == Join(Headers, ',')
    ensures forall i :: 0 <= i < |history| ==> lines[i + 1] == Join(Row(history[i], iso), ',')
  {
    [Join(Headers, ',')] + seq(|history|, i requires 0 <= i < |history| => Join(Row(history[i], iso), ','))
  }

  /** `exportData`'s `csvContent`. */
  function ExportContent(history: seq<Sample>, iso: int -> string): string
  {
    Join(Lines(history, iso), '\n')
  }

  ghost predicate PlainText(s: string)
  {
    ',' !in s && '\n' !in s
  }

  lemma NumeralIsPlain(s: string)
    requires IsNumeral(s)
    ensures PlainText(s)
  {
    assert forall i :: 0 <= i < |s| ==> s[i] != ',' && s[i] != '\n';
  }

  lemma RowIsPlain(s: Sample, iso: int -> string)
    requires PlainText(iso(s.timestamp))
    ensures forall k :: 0 <= k < 3 ==> PlainText(Row(s, iso)[k])
    ensures '\n' !in Join(Row(s, iso), ',')
  {
    IntToStringNumeral(s.heartRate);
    NumeralIsPlain(IntToString(s.heartRate));
    TenthsToStringNumeral(s.temperatureTenths);
    NumeralIsPlain(TenthsToString(s.temperatureTenths));
    JoinWithout(Row(s, iso), ',', '\n');
  }

  /** Read back line by line and field by field, the export is the header
      followed by exactly one three-field row per sample, in history order,
      provided the timestamp format writes no comma or line break. */
  lemma ExportShape(history: seq<Sample>, iso: int -> string)
    requires forall t :: PlainText(iso(t))
    ensures Split(ExportContent(history, iso), '\n') == Lines(history, iso)
    ensures |Split(ExportContent(history, iso), '\n')| == 1 + |history|
    ensures Split(Split(ExportContent(history, iso), '\n')[0], ',') == Headers
    ensures forall i :: 0 <= i < |history| ==>
      Split(Split(ExportContent(history, iso), '\n')[i + 1], ',') == Row(history[i], iso)
  {
    var lines := Lines(history, iso);
    assert Split(Join(Headers, ','), ',') == Headers by {
      assert forall k :: 0 <= k < |Headers| ==> ',' !in Headers[k];
      SplitJoin(Headers, ',');
    }
    forall i | 0 <= i < |history|
      ensures '\n' !in lines[i + 1]
      ensures Split(lines[i + 1], ',') == Row(history[i], iso)
    {
      RowIsPlain(history[i], iso);
      SplitJoin(Row(history[i], iso), ',');
    }
    assert '\n' !in lines[0] by {
      assert forall k :: 0 <= k < |Headers| ==> '\n' !in Headers[k];
      JoinWithout(Headers, ',', '\n');
    }
    assert forall k :: 0 <= k < |lines| ==> '\n' !in lines[k] by {
      forall k | 0 <= k < |lines| ensures '\n' !in lines[k] {
        if k > 0 {
          assert '\n' !in lines[(k - 1) + 1];
        }
      }
    }
    SplitJoin(lines, '\n');
  }

  /** `historicalData.slice(-5).reverse()`. */
  function RecentRows(history: seq<Sample>): seq<Sample>
  {
    Reverse(LastN(history, 5))
  }

  /** The recent table holds at most five samples, the newest first. */
  lemma RecentRowsNewestFirst(history: seq<Sample>)
    ensures |RecentRows(history)| == if |history| < 5 then |history| else 5
    ensures forall i :: 0 <= i < |RecentRows(history)| ==>
      RecentRows(history)[i] == history[|history| - 1 - i]
  {
    var last := LastN(history, 5);
    forall i | 0 <= i < |last| ensures RecentRows(history)[i] == history[|history| - 1 - i] {
      ReverseAt(last, i);
    }
  }

  /** The status badge of a table row. */
  function Badge(s: Sample): (text: string)
    ensures text == "Normal" <==> s.status.heartRate == Normal && s.status.temperature == Normal
    ensures text == "Normal" || text == "Alert"
  {
    if s.status.heartRate == Normal && s.status.temperature == Normal then "Normal" else "Alert"
  }
}
