/** The sensor-data store (`SensorDataContext.tsx`): threshold
    classification, the 100-entry history, the store's own simulator and the
    connect/disconnect effect on `isConnected`.

    React state cells become fields of `SensorDataProvider`. The closures the
    source registers read state from the render in which they were created;
    the store keeps those snapshots explicitly: the simulator interval uses
    the `currentData` and thresholds of the render in which `isConnected`
    last became false (or of the first render), and the live-data callback
    uses the thresholds of the render in which connect was called. */
module SensorData {
  import opened Options
  import opened Sequences
  import opened RandomWalk
  import ArduinoService

  datatype Status = Normal | Low | High

  datatype Range = Range(min: real, max: real)

  datatype Thresholds = Thresholds(heartRate: Range, temperature: Range)

  const DefaultThresholds: Thresholds := Thresholds(Range(60.0, 100.0), Range(21.0, 29.0))

  datatype Statuses = Statuses(heartRate: Status, temperature: Status)

  /** One sample. The temperature is held in tenths of a degree; the timestamp
      in milliseconds. */
  datatype Sample = Sample(heartRate: int, temperatureTenths: int, timestamp: int, status: Statuses)

  /** The temperature of a sample in degrees. */
  function Degrees(s: Sample): real
  {
    s.temperatureTenths as real / 10.0
  }

  /** The two measured quantities, and a sample's value of each. */
  datatype Metric = HeartRate | Temperature

  function Value(s: Sample, m: Metric): real
  {
    match m
    case HeartRate => s.heartRate as real
    case Temperature => Degrees(s)
  }

  const HistoryCapacity: nat := 100

  /** The three-way status of a value: below the minimum is low, above the
      maximum high, anything else (both bounds included) normal. The low test
      comes first, so with inverted thresholds a value below `min` and above
      `max` is low. */
  function Classify(v: real, r: Range): (s: Status)
    ensures s == Low <==> v < r.min
    ensures s == High <==> r.min <= v && r.max < v
    ensures s == Normal <==> r.min <= v <= r.max
  {
    if v < r.min then Low else if v > r.max then High else Normal
  }

  /** The sample both ingestion paths build from a heart rate and a
      temperature, classified against the thresholds they captured. */
  function MakeSample(heartRate: int, temperatureTenths: int, t: Thresholds, now: int): (s: Sample)
    ensures s.heartRate == heartRate && s.temperatureTenths == temperatureTenths && s.timestamp == now
    ensures s.status.heartRate == Normal <==> t.heartRate.min <= heartRate as real <= t.heartRate.max
    ensures s.status.temperature == Normal <==> t.temperature.min <= Degrees(s) <= t.temperature.max
    ensures s.status == Statuses(Classify(heartRate as real, t.heartRate), Classify(Degrees(s), t.temperature))
  {
    var s := Sample(heartRate, temperatureTenths, now, Statuses(Normal, Normal));
    s.(status := Statuses(Classify(heartRate as real, t.heartRate), Classify(Degrees(s), t.temperature)))
  }

  /** `currentData?.heartRate || 72`: no sample, or a heart rate of 0, gives 72. */
  function SeedHeartRate(prev: Option<Sample>): (hr: int)
    ensures prev.None? ==> hr == 72
    ensures prev.Some? ==> hr == if prev.value.heartRate != 0 then prev.value.heartRate else 72
    ensures hr != 0
  {
    if prev.Some? && prev.value.heartRate != 0 then prev.value.heartRate else 72
  }

  /** `currentData?.temperature || 26.5`, in tenths. */
  function SeedTemperature(prev: Option<Sample>): (t: int)
    ensures prev.None? ==> t == 265
    ensures prev.Some? ==> t == if prev.value.temperatureTenths != 0 then prev.value.temperatureTenths else 265
    ensures t != 0
  {
    if prev.Some? && prev.value.temperatureTenths != 0 then prev.value.temperatureTenths else 265
  }

  /** `generateRandomData`: one random-walk step from the previous sample
      the closure sees, classified by the same rule as live data. */
  function GenerateRandomData(prev: Option<Sample>, t: Thresholds, hr: Draws, temp: Draws, now: int): (s: Sample)
    ensures 40 <= s.heartRate <= 120 && 150 <= s.temperatureTenths <= 400
    ensures s == MakeSample(NextHeartRate(SeedHeartRate(prev), hr), NextTemperature(SeedTemperature(prev), temp), t, now)
  {
    MakeSample(NextHeartRate(SeedHeartRate(prev), hr), NextTemperature(SeedTemperature(prev), temp), t, now)
  }

  /** The functional history update: append, then keep the last 100. */
  function AppendBounded(history: seq<Sample>, x: Sample): (r: seq<Sample>)
    ensures |r| == if |history| + 1 < HistoryCapacity then |history| + 1 else HistoryCapacity
    ensures r == (history + [x])[|history| + 1 - |r|..]
    ensures r[|r| - 1] == x
  {
    var grown := history + [x];
    if |grown| > HistoryCapacity then grown[|grown| - HistoryCapacity..] else grown
  }

  /** Appending samples one at a time, starting from a history of at most
      100 entries. */
  function AppendAll(history: seq<Sample>, xs: seq<Sample>): seq<Sample>
    decreases |xs|
  {
    if xs == [] then history else AppendAll(AppendBounded(history, xs[0]), xs[1..])
  }

  /** Eviction is strictly from the front: after any run of ingestions the
      history is the last 100 of everything appended, in order. */
  lemma {:induction false} AppendAllKeepsLast(history: seq<Sample>, xs: seq<Sample>)
    requires |history| <= HistoryCapacity
    ensures AppendAll(history, xs) == LastN(history + xs, HistoryCapacity)
    decreases |xs|
  {
    if xs == [] {
      assert history + xs == history;
    } else {
      var x, rest := xs[0], xs[1..];
      var grown := history + [x];
      var h1 := AppendBounded(history, x);
      calc {
        AppendAll(history, xs);
        AppendAll(h1, rest);
        { AppendAllKeepsLast(h1, rest); }
        LastN(h1 + rest, HistoryCapacity);
        { AppendBoundedIsLastN(history, x); }
        LastN(LastN(grown, HistoryCapacity) + rest, HistoryCapacity);
        { LastNAppendAll(grown, rest); }
        LastN(grown + rest, HistoryCapacity);
        { assert grown + rest == history + xs; }
        LastN(history + xs, HistoryCapacity);
      }
    }
  }

  lemma AppendBoundedIsLastN(history: seq<Sample>, x: Sample)
    ensures AppendBounded(history, x) == LastN(history + [x], HistoryCapacity)
  {
  }

  lemma {:induction false} LastNAppendAll(s: seq<Sample>, xs: seq<Sample>)
    ensures LastN(LastN(s, HistoryCapacity) + xs, HistoryCapacity) == LastN(s + xs, HistoryCapacity)
    decreases |xs|
  {
    if xs == [] {
      assert LastN(s, HistoryCapacity) + xs == LastN(s, HistoryCapacity);
      assert s + xs == s;
    } else {
      var t := LastN(s, HistoryCapacity);
      LastNAppend(s, xs[0], HistoryCapacity);
      LastNAppendAll(s + [xs[0]], xs[1..]);
      LastNAppendAll(t + [xs[0]], xs[1..]);
      assert t + [xs[0]] + xs[1..] == t + xs;
      assert s + [xs[0]] + xs[1..] == s + xs;
    }
  }

  ghost predicate Chronological(h: seq<Sample>)
  {
    forall i, j :: 0 <= i < j < |h| ==> h[i].timestamp <= h[j].timestamp
  }

  /** With a clock that does not run backwards, the history stays in time order. */
  lemma AppendBoundedChronological(history: seq<Sample>, x: Sample)
    requires Chronological(history)
    requires history != [] ==> history[|history| - 1].timestamp <= x.timestamp
    ensures Chronological(AppendBounded(history, x))
  {
    var grown := history + [x];
    forall i, j | 0 <= i < j < |grown| ensures grown[i].timestamp <= grown[j].timestamp {
      if j == |history| {
        assert grown[j] == x;
        assert grown[i] == history[i];
        if i < |history| - 1 {
          assert history[i].timestamp <= history[|history| - 1].timestamp;
        }
      } else {
        assert grown[i] == history[i] && grown[j] == history[j];
      }
    }
    SuffixChronological(grown, |grown| - |AppendBounded(history, x)|);
  }

  lemma SuffixChronological(h: seq<Sample>, k: nat)
    requires k <= |h| && Chronological(h)
    ensures Chronological(h[k..])
  {
    var r := h[k..];
    forall i, j | 0 <= i < j < |r| ensures r[i].timestamp <= r[j].timestamp {
      assert r[i] == h[k + i] && r[j] == h[k + j];
    }
  }

  class SensorDataProvider {
    var currentData: Option<Sample>
    var historicalData: seq<Sample>
    var isConnected: bool
    var thresholds: Thresholds
    /** What the running simulator interval sees as `currentData`. */
    var simulatorSeed: Option<Sample>
    /** What the running simulator interval sees as `thresholds`. */
    var simulatorThresholds: Thresholds
    /** The live-data callbacks `connectArduino` has created, one per call,
        each as the `thresholds` it sees; a callback is its index here. */
    var liveCallbacks: seq<Thresholds>

    /** The current sample is the newest history entry, and the history holds
        at most 100 entries. */
    ghost predicate Valid()
      reads this
    {
      && |historicalData| <= HistoryCapacity
      && (currentData.None? <==> historicalData == [])
      && (currentData.Some? ==> historicalData[|historicalData| - 1] == currentData.value)
    }

    constructor ()
      ensures Valid()
      ensures currentData == None && historicalData == [] && !isConnected
      ensures thresholds == DefaultThresholds
      ensures simulatorSeed == None && simulatorThresholds == DefaultThresholds
      ensures liveCallbacks == []
    {
      currentData := None;
      historicalData := [];
      isConnected := false;
      thresholds := DefaultThresholds;
      simulatorSeed := None;
      simulatorThresholds := DefaultThresholds;
      liveCallbacks := [];
    }

    /** `setCurrentData(s)` followed by the functional history update. */
    method Ingest(s: Sample)
      requires Valid()
      modifies this
      ensures Valid()
      ensures currentData == Some(s) && historicalData == AppendBounded(old(historicalData), s)
      ensures isConnected == old(isConnected) && thresholds == old(thresholds)
      ensures simulatorSeed == old(simulatorSeed) && simulatorThresholds == old(simulatorThresholds)
      ensures liveCallbacks == old(liveCallbacks)
    {
      currentData := Some(s);
      historicalData := AppendBounded(historicalData, s);
    }

    /** One tick of the simulator interval, which exists only while not
        connected: generate a sample from the interval's snapshot and ingest it. */
    method SimulatorTick(hr: Draws, temp: Draws, now: int) returns (produced: Option<Sample>)
      requires Valid()
      modifies this
      ensures Valid()
      ensures old(isConnected) ==> produced == None && unchanged(this)
      ensures !old(isConnected) ==>
        && produced == Some(GenerateRandomData(old(simulatorSeed), old(simulatorThresholds), hr, temp, now))
        && currentData == produced
        && historicalData == AppendBounded(old(historicalData), produced.value)
      ensures isConnected == old(isConnected) && thresholds == old(thresholds)
      ensures simulatorSeed == old(simulatorSeed) && simulatorThresholds == old(simulatorThresholds)
      ensures liveCallbacks == old(liveCallbacks)
    {
      if isConnected {
        return None;
      }
      var s := GenerateRandomData(simulatorSeed, simulatorThresholds, hr, temp, now);
      Ingest(s);
      produced := Some(s);
    }

    /** A live-data callback receiving a reading from the transport: classify
        it against the thresholds that callback captured when its connect was
        called, and ingest it. It runs whenever the transport calls it,
        whatever `isConnected` says. */
    method OnLiveData(d: ArduinoService.Delivery, now: int)
      requires Valid()
      requires d.callback < |liveCallbacks|
      modifies this
      ensures Valid()
      ensures currentData == Some(MakeSample(d.reading.heartRate, d.reading.temperatureTenths, old(liveCallbacks)[d.callback], now))
      ensures historicalData == AppendBounded(old(historicalData), currentData.value)
      ensures isConnected == old(isConnected) && thresholds == old(thresholds)
      ensures simulatorSeed == old(simulatorSeed) && simulatorThresholds == old(simulatorThresholds)
      ensures liveCallbacks == old(liveCallbacks)
    {
      Ingest(MakeSample(d.reading.heartRate, d.reading.temperatureTenths, liveCallbacks[d.callback], now));
    }

    /** `setThresholds`: replaces the configuration; stored samples keep the
        status they were given. */
    method SetThresholds(t: Thresholds)
      requires Valid()
      modifies this
      ensures Valid()
      ensures thresholds == t
      ensures currentData == old(currentData) && historicalData == old(historicalData)
      ensures isConnected == old(isConnected)
      ensures simulatorSeed == old(simulatorSeed) && simulatorThresholds == old(simulatorThresholds)
      ensures liveCallbacks == old(liveCallbacks)
    {
      thresholds := t;
    }

    /** `setIsConnected(v)` and the effect keyed on it: when the flag turns
        false a new simulator interval starts with this render's snapshot;
        when it turns true the interval is cleared. */
    method SetIsConnected(v: bool)
      requires Valid()
      modifies this
      ensures Valid()
      ensures isConnected == v
      ensures old(isConnected) && !v ==> simulatorSeed == old(currentData) && simulatorThresholds == old(thresholds)
      ensures !(old(isConnected) && !v) ==>
        simulatorSeed == old(simulatorSeed) && simulatorThresholds == old(simulatorThresholds)
      ensures currentData == old(currentData) && historicalData == old(historicalData)
      ensures thresholds == old(thresholds) && liveCallbacks == old(liveCallbacks)
    {
      if isConnected && !v {
        simulatorSeed := currentData;
        simulatorThresholds := thresholds;
      }
      isConnected := v;
    }

    /** The first half of `connectArduino`: create a new live callback `cb`,
        which captures the current thresholds, register it with the transport
        and wait. */
    method ConnectArduino(svc: ArduinoService.Service) returns (cb: ArduinoService.Callback)
      requires Valid()
      modifies this, svc
      ensures Valid()
      ensures cb == |old(liveCallbacks)| && liveCallbacks == old(liveCallbacks) + [old(thresholds)]
      ensures svc.socket == ArduinoService.Live(ArduinoService.Connecting)
      ensures svc.dataCallback == Some(cb) && svc.connection == Some(ArduinoService.Pending)
      ensures svc.simulations == old(svc.simulations)
      ensures currentData == old(currentData) && historicalData == old(historicalData)
      ensures isConnected == old(isConnected) && thresholds == old(thresholds)
      ensures simulatorSeed == old(simulatorSeed) && simulatorThresholds == old(simulatorThresholds)
    {
      cb := |liveCallbacks|;
      svc.Connect(cb);
      liveCallbacks := liveCallbacks + [thresholds];
    }

    /** The second half of `connectArduino`, once the transport's promise
        settles: resolved sets the flag, rejected clears it (the error is
        swallowed). */
    method ConnectSettled(resolved: bool)
      requires Valid()
      modifies this
      ensures Valid()
      ensures isConnected == resolved
      ensures old(isConnected) && !resolved ==> simulatorSeed == old(currentData) && simulatorThresholds == old(thresholds)
      ensures !(old(isConnected) && !resolved) ==>
        simulatorSeed == old(simulatorSeed) && simulatorThresholds == old(simulatorThresholds)
      ensures currentData == old(currentData) && historicalData == old(historicalData)
      ensures thresholds == old(thresholds) && liveCallbacks == old(liveCallbacks)
    {
      SetIsConnected(resolved);
    }

    /** `disconnectArduino`: tear the transport down and clear the flag. */
    method DisconnectArduino(svc: ArduinoService.Service)
      requires Valid()
      modifies this, svc
      ensures Valid()
      ensures !isConnected
      ensures svc.socket == ArduinoService.NoSocket && svc.dataCallback == None
      ensures svc.connection == old(svc.connection) && svc.simulations == old(svc.simulations)
      ensures old(isConnected) ==> simulatorSeed == old(currentData) && simulatorThresholds == old(thresholds)
      ensures !old(isConnected) ==>
        simulatorSeed == old(simulatorSeed) && simulatorThresholds == old(simulatorThresholds)
      ensures currentData == old(currentData) && historicalData == old(historicalData)
      ensures thresholds == old(thresholds) && liveCallbacks == old(liveCallbacks)
    {
      svc.Disconnect();
      SetIsConnected(false);
    }
  }
}
