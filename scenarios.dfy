/** Runs of the store and the transport together, driven event by event,
    showing how the two interact when the connection fails or drops. */
module Scenarios {
  import opened Options
  import opened Numbers
  import opened RandomWalk
  import opened SensorData
  import opened ArduinoService

  /** A device message of 130.6 bpm and 38.27 degrees, under the default
      thresholds, becomes a sample of 131 bpm and 38.3 degrees, both high. */
  lemma DeviceMessageExample(now: int)
    ensures Decode(Parsed(JsonNumber(130.6), JsonNumber(38.27))) == Some(Reading(131, 383))
    ensures MakeSample(131, 383, DefaultThresholds, now).status == Statuses(High, High)
  {
    assert Round(130.6) == 131;
    assert RoundTenths(38.27) == 383;
  }

  /** The connection opens and later drops. The store still reports itself
      connected, the transport's fallback simulator starts feeding the
      store's live callback, and the store ingests what it produces. */
  method ConnectionDrops(hr: Draws, temp: Draws, now: int)
    returns (store: SensorDataProvider, svc: Service)
    ensures store.Valid() && store.isConnected
    ensures |svc.simulations| == 1 && svc.simulations[0].callback == 0
    ensures |store.historicalData| == 1 && store.historicalData[0].heartRate == NextHeartRate(72, hr)
  {
    store := new SensorDataProvider();
    svc := new Service();
    var cb := store.ConnectArduino(svc);
    svc.OnOpen();
    store.ConnectSettled(svc.connection == Some(Resolved));
    svc.OnClose();
    var emitted := svc.SimulationTick(0, hr, temp);
    store.OnLiveData(emitted.value, now);
  }

  /** The connection never opens. The store goes back to its own simulator,
      yet the callback stays registered with the transport, so the close
      that follows the error also starts the transport's simulator: both
      feed the store, one through the live callback. */
  method ConnectionFails() returns (store: SensorDataProvider, svc: Service)
    ensures store.Valid() && !store.isConnected
    ensures svc.connection == Some(Rejected) && svc.dataCallback == Some(0)
    ensures |svc.simulations| == 1 && svc.simulations[0].running
  {
    store := new SensorDataProvider();
    svc := new Service();
    var cb := store.ConnectArduino(svc);
    svc.OnError();
    store.ConnectSettled(svc.connection == Some(Resolved));
    svc.OnClose();
  }

  /** A fallback simulation keeps the callback it started with, and that
      callback keeps the thresholds of its own connect. After a failed
      connect under the defaults, the thresholds are narrowed to 50-70 bpm
      and a second connect is started; the old fallback's 72 bpm still
      reaches the store through the first callback and is classified as
      normal, although the current thresholds would call it high. */
  method StaleCallbackThresholds(now: int) returns (store: SensorDataProvider, svc: Service)
    ensures store.Valid()
    ensures svc.dataCallback == Some(1) && store.thresholds.heartRate == Range(50.0, 70.0)
    ensures store.currentData.Some? && store.currentData.value.heartRate == 72
    ensures store.currentData.value.status.heartRate == Normal
    ensures Classify(72.0, store.thresholds.heartRate) == High
  {
    store := new SensorDataProvider();
    svc := new Service();
    var first := store.ConnectArduino(svc);
    svc.OnError();
    store.ConnectSettled(svc.connection == Some(Resolved));
    svc.OnClose();
    store.SetThresholds(Thresholds(Range(50.0, 70.0), DefaultThresholds.temperature));
    var second := store.ConnectArduino(svc);
    var still := Draws(0.5, 0.0, 0.0);
    assert NextHeartRate(72, still) == 72;
    var emitted := svc.SimulationTick(0, still, still);
    assert emitted == Some(Delivery(first, Reading(72, NextTemperature(265, still))));
    store.OnLiveData(emitted.value, now);
  }

  /** A fallback started by a dropped connection stops at its next tick,
      without emitting, once the connection is explicitly torn down. */
  method DisconnectStopsFallback(hr: Draws, temp: Draws) returns (svc: Service)
    ensures svc.dataCallback == None && svc.socket == NoSocket
    ensures |svc.simulations| == 1 && !svc.simulations[0].running
  {
    var store := new SensorDataProvider();
    svc := new Service();
    var cb := store.ConnectArduino(svc);
    svc.OnOpen();
    svc.OnClose();
    store.DisconnectArduino(svc);
    var emitted := svc.SimulationTick(0, hr, temp);
    assert emitted == None;
  }
}
