/** The system status card (`SystemStatusCard.tsx`): the "last update"
    text computed from the newest history entry, and the connect/disconnect
    toggle button. */
module SystemStatus {
  import opened Options
  import opened Numbers
  import opened SensorData
  import ArduinoService

  /** `Math.floor((now - last) / 1000)`: whole seconds elapsed, rounded down
      (also when the clock went backwards). */
  function ElapsedSeconds(now: int, last: int): (d: int)
    ensures d * 1000 <= now - last < (d + 1) * 1000
  {
    (now - last) / 1000
  }

  datatype LastUpdate = NoData | JustNow | SecondsAgo(seconds: int) | MinutesAgo(minutes: int) | HoursAgo(hours: int)

  /** `getTimeSinceLastUpdate`, as the bucket it picks. */
  function TimeSinceLastUpdate(history: seq<Sample>, now: int): (u: LastUpdate)
    ensures u == NoData <==> history == []
    ensures history != [] ==>
      var d := ElapsedSeconds(now, history[|history| - 1].timestamp);
      && (u == JustNow <==> d < 5)
      && (u.SecondsAgo? <==> 5 <= d < 60)
      && (u.MinutesAgo? <==> 60 <= d < 3600)
      && (u.HoursAgo? <==> 3600 <= d)
      && (u.SecondsAgo? ==> u.seconds == d)
      && (u.MinutesAgo? ==> u.minutes * 60 <= d < (u.minutes + 1) * 60)
      && (u.HoursAgo? ==> u.hours * 3600 <= d < (u.hours + 1) * 3600)
  {
    if |history| == 0 then NoData
    else
      var d := ElapsedSeconds(now, history[|history| - 1].timestamp);
      if d < 5 then JustNow
      else if d < 60 then SecondsAgo(d)
      else if d < 3600 then MinutesAgo(d / 60)
      else HoursAgo(d / 3600)
  }

  /** Only the newest sample's timestamp matters. */
  lemma OnlyNewestMatters(h1: seq<Sample>, h2: seq<Sample>, now: int)
    requires h1 != [] && h2 != []
    requires h1[|h1| - 1].timestamp == h2[|h2| - 1].timestamp
    ensures TimeSinceLastUpdate(h1, now) == TimeSinceLastUpdate(h2, now)
  {
  }

  /** The text the card shows for a bucket. */
  function LastUpdateText(u: LastUpdate): string
  {
    match u
    case NoData => "No data"
    case JustNow => "Just now"
    case SecondsAgo(n) => IntToString(n) + " seconds ago"
    case MinutesAgo(n) => IntToString(n) + " minutes ago"
    case HoursAgo(n) => IntToString(n) + " hours ago"
  }

  /** `handleToggleConnection`: disconnect when connected, otherwise start a
      connect (which then waits for the transport); `started` is the live
      callback a connect created. */
  method ToggleConnection(store: SensorDataProvider, svc: ArduinoService.Service)
    returns (started: Option<ArduinoService.Callback>)
    requires store.Valid()
    modifies store, svc
    ensures store.Valid()
    ensures old(store.isConnected) ==>
      && started == None && !store.isConnected
      && svc.socket == ArduinoService.NoSocket && svc.dataCallback == None
      && svc.connection == old(svc.connection)
      && store.liveCallbacks == old(store.liveCallbacks)
    ensures !old(store.isConnected) ==>
      && started == Some(|old(store.liveCallbacks)|) && !store.isConnected
      && svc.socket == ArduinoService.Live(ArduinoService.Connecting) && svc.dataCallback == started
      && svc.connection == Some(ArduinoService.Pending)
      && store.liveCallbacks == old(store.liveCallbacks) + [old(store.thresholds)]
    ensures old(store.isConnected) ==>
      store.simulatorSeed == old(store.currentData) && store.simulatorThresholds == old(store.thresholds)
    ensures !old(store.isConnected) ==>
      store.simulatorSeed == old(store.simulatorSeed) && store.simulatorThresholds == old(store.simulatorThresholds)
    ensures svc.simulations == old(svc.simulations)
    ensures store.currentData == old(store.currentData) && store.historicalData == old(store.historicalData)
    ensures store.thresholds == old(store.thresholds)
  {
    if store.isConnected {
      store.DisconnectArduino(svc);
      started := None;
    } else {
      var cb := store.ConnectArduino(svc);
      started := Some(cb);
    }
  }
}
