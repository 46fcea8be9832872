# Health monitor dashboard — a Dafny model of its data core

The dashboard shows a patient's heart rate and body temperature. The
readings come from an ESP8266/ESP32 over a WebSocket, or from a built-in
simulator while no device is connected. This project models the parts of the
web client that decide what is stored and what is shown:

- **The sensor-data store** (`SensorData`, from `SensorDataContext.tsx`).
  It classifies each reading against the thresholds as low, normal or high.
  It keeps the newest reading and a history of at most 100 readings. It runs
  its own random-walk simulator while not connected, and it drives
  connect/disconnect. React state cells are the fields of the class
  `SensorDataProvider`. Each closure the source registers reads state from
  the render that created it. The store keeps those snapshots as explicit
  fields:
  - `simulatorSeed` and `simulatorThresholds` belong to the simulator
    interval;
  - `liveCallbacks` holds one entry per live-data callback. Every connect
    creates a new callback, which is its index in this list, and the entry
    is the thresholds that callback captured.
- **The device transport** (`ArduinoService`, from `arduinoService.ts`).
  The module-level `socket` and `dataCallback` cells are fields of the class
  `Service`, along with the promise of the latest connect and the fallback
  simulation intervals. The socket's open, error, close and message events
  are methods. The transport also covers message decoding and rounding, the
  explicit disconnect, and the fallback simulator that a close starts.
- **The random walk** (`RandomWalk`). Both simulators take the same
  clamped, rounded step. It is defined once, and the `Math.random()` values
  it uses are parameters.
- **The analytics page** (`Analytics`, from `Analytics.tsx`): the per-metric
  minimum, maximum and one-decimal mean; the comma-separated export; the
  table of the five newest readings; and its Normal/Alert badge.
- **The chart's data preparation** (`Chart`, from `ChartComponent.tsx`):
  the time-range table, the time-window filter, and the datasets and axes
  chosen for each chart type.
- **The system status card** (`SystemStatus`, from `SystemStatusCard.tsx`):
  the "last update" bucket, and the connect/disconnect toggle.
- **The metric card** (`HealthMetricCard`, from `HealthMetricCard.tsx`):
  the clamped bar percentage and the status label.
- **Supporting definitions.** `Numbers` holds `Math.round`, `toFixed(1)`,
  the clamp and number printing on exact reals. `Sequences` holds
  `slice(-n)`, `reverse`, `join` and `split`.
- **Whole scenarios** (`Scenarios`). These drive the store and the
  transport together through a dropped connection, a failed connection, a
  fallback that outlives a threshold change, and an explicit disconnect.

Temperatures that pass through `parseFloat(x.toFixed(1))` are kept as
integer tenths of a degree. Thresholds and raw device numbers are reals.
Timestamps are integer milliseconds.

Behaviour of the code worth knowing:

- **Close does not reset the flag.** When the device connection closes, the
  store is not told. `isConnected` stays true, and the transport's own
  fallback simulator feeds the store through the live callback
  (`Scenarios.ConnectionDrops`).
- **Both simulators can run at once.** A failed connect rejects the promise
  but leaves the callback registered. The close that follows the error then
  starts the transport's simulator, while the store's own simulator is also
  running (`Scenarios.ConnectionFails`).
- **No connect timeout.** Nothing bounds the wait for the socket to open.
- **Stale simulator seed.** The store's simulator seeds each step from the
  sample it captured when its interval started, not from the newest sample.
  It classifies with the thresholds it captured at that time too.
- **Stale callback thresholds.** A fallback simulation keeps calling the
  callback it started with, even after a newer connect. That callback
  classifies with the thresholds of its own connect
  (`Scenarios.StaleCallbackThresholds`).

## Model

| member | source | states |
|---|---|---|
| Numbers.Round | src/services/arduinoService.ts:26 | `Math.round` gives the integer within half of x, halves going up |
| Numbers.RoundMonotone | src/components/HealthMetricCard.tsx:31 | rounding preserves order |
| Numbers.RoundOfInt | src/services/arduinoService.ts:26 | an integer heart rate is left unchanged by rounding |
| Numbers.RoundTenths | src/services/arduinoService.ts:27 | `parseFloat(x.toFixed(1))` is within half a tenth of x, ties away from zero |
| Numbers.RoundTenthsOfTenths | src/services/arduinoService.ts:27 | a one-decimal value is left unchanged by `toFixed(1)` |
| Numbers.Clamp | src/context/SensorDataContext.tsx:79 | `Math.max(lo, Math.min(hi, v))` lies in [lo, hi], is v inside and the nearer bound outside |
| Numbers.ClampStep | src/context/SensorDataContext.tsx:79 | clamping never moves a value further than the unclamped step |
| Numbers.NatToStringRoundTrip | src/pages/Analytics.tsx:37 | the decimal digits written for a number read back as that number |
| Numbers.IntToString | src/pages/Analytics.tsx:37 | a heart rate prints as an optional minus sign then digits that read back as its magnitude |
| Numbers.TenthsToStringValue | src/pages/Analytics.tsx:37 | a temperature prints as its sign, the digits of its whole degrees and, unless the tenths are zero, a point and the tenths digit |
| Numbers.TenthsToStringNumeral | src/pages/Analytics.tsx:37 | a temperature prints with digits, sign and point only, never empty |
| RandomWalk.HeartRateChangeBounded | src/context/SensorDataContext.tsx:78 | a heart-rate change drawn from [0,1) values lies in [-7, 7] |
| RandomWalk.TemperatureChangeBounded | src/context/SensorDataContext.tsx:82 | a temperature change lies in [-1.2, 1.2] |
| RandomWalk.NextHeartRate | src/context/SensorDataContext.tsx:79 | a simulated heart rate always lies in 40..120 |
| RandomWalk.NextTemperature | src/context/SensorDataContext.tsx:83 | a simulated temperature always lies in 15.0..40.0 |
| RandomWalk.HeartRateStepBounded | src/services/arduinoService.ts:76-78 | from an in-range heart rate one tick moves at most 7 bpm |
| RandomWalk.TemperatureStepBounded | src/services/arduinoService.ts:81-83 | from an in-range temperature one tick moves at most 1.2 degrees |
| Sequences.LastN | src/context/SensorDataContext.tsx:62-65 | `slice(-n)` is the suffix of length min(n, length) |
| Sequences.LastNAppend | src/context/SensorDataContext.tsx:59-66 | trimming before an append gives the same last n as trimming after it |
| Sequences.ReverseAt | src/pages/Analytics.tsx:149 | element i of the reversal is element length-1-i of the original |
| Sequences.SplitJoin | src/pages/Analytics.tsx:35-38 | splitting a join undoes it when no piece holds the separator |
| Sequences.JoinWithout | src/pages/Analytics.tsx:37 | a join holds no character that none of its pieces or the separator holds |
| ArduinoService.Decode | src/services/arduinoService.ts:23-32 | a message passes iff both fields are numbers; heart rate rounded to the nearest integer, temperature to the nearest tenth |
| ArduinoService.DecodeEncode | src/services/arduinoService.ts:24-28 | a reading already integer/one-decimal decodes to itself |
| ArduinoService.Step | src/services/arduinoService.ts:75-83 | a fallback tick keeps the captured callback and takes one walk step from the last heart rate and temperature, landing in the walk's ranges |
| ArduinoService.StepMovesLittle | src/services/arduinoService.ts:75-83 | with random draws, one fallback tick moves the heart rate at most 7 bpm and the temperature at most 1.2 degrees |
| ArduinoService.Service.constructor | src/services/arduinoService.ts:4-5 | no socket, no callback, no promise, no simulation |
| ArduinoService.Service.Connect | src/services/arduinoService.ts:8-14 | the socket is replaced and connecting, the callback registered, the promise pending |
| ArduinoService.Service.OnOpen | src/services/arduinoService.ts:16-19 | a pending promise resolves; a settled one stays settled |
| ArduinoService.Service.OnError | src/services/arduinoService.ts:35-38 | a pending promise is rejected; socket and callback stay registered |
| ArduinoService.Service.OnClose | src/services/arduinoService.ts:40-46 | a simulation seeded at 72 bpm / 26.5 degrees starts iff a callback is registered; nothing else changes |
| ArduinoService.Service.OnMessage | src/services/arduinoService.ts:21-33 | the callback receives the decoded reading iff one is registered and the message decodes; otherwise nothing happens |
| ArduinoService.Service.Disconnect | src/services/arduinoService.ts:56-62 | socket and callback are cleared; running simulations are untouched |
| ArduinoService.Service.SimulationTick | src/services/arduinoService.ts:69-89 | a stopped interval emits nothing; with no callback it stops; otherwise it steps and emits to the callback it captured |
| SensorData.Classify | src/context/SensorDataContext.tsx:86-92 | low iff below min, high iff not low and above max, normal iff within both bounds inclusive |
| SensorData.MakeSample | src/context/SensorDataContext.tsx:111-127 | a sample keeps its values and time; each status is the three-way classification of its value, so normal iff within its threshold range |
| SensorData.SeedHeartRate | src/context/SensorDataContext.tsx:74 | the walk continues from the previous heart rate; with no sample, or a previous 0, it starts at 72 |
| SensorData.SeedTemperature | src/context/SensorDataContext.tsx:75 | the walk continues from the previous temperature; with no sample, or a previous 0, it starts at 26.5 |
| SensorData.GenerateRandomData | src/context/SensorDataContext.tsx:73-103 | a simulated sample lies in the walk's ranges and is classified like live data |
| SensorData.AppendBounded | src/context/SensorDataContext.tsx:59-66 | the new history has min(n+1, 100) entries, is a suffix of old+new and ends with the new sample |
| SensorData.AppendAllKeepsLast | src/context/SensorDataContext.tsx:59-66 | after any run of ingestions the history is the last 100 of everything appended, in order |
| SensorData.AppendBoundedChronological | src/context/SensorDataContext.tsx:130-136 | with a clock that does not go back, the history stays in time order |
| SensorData.SensorDataProvider.constructor | src/context/SensorDataContext.tsx:45-51 | empty store, not connected, default thresholds 60-100 bpm and 21-29 degrees |
| SensorData.SensorDataProvider.Ingest | src/context/SensorDataContext.tsx:129-136 | the current sample becomes the new one and the bounded history grows; the invariant holds |
| SensorData.SensorDataProvider.SimulatorTick | src/context/SensorDataContext.tsx:54-71 | when connected nothing happens; otherwise a sample generated from the captured snapshot is ingested |
| SensorData.SensorDataProvider.OnLiveData | src/context/SensorDataContext.tsx:108-137 | a reading is classified with the thresholds its delivering callback captured and ingested, whatever the flag says |
| SensorData.SensorDataProvider.SetThresholds | src/context/SensorDataContext.tsx:158 | only the thresholds change; stored samples keep their status |
| SensorData.SensorDataProvider.SetIsConnected | src/context/SensorDataContext.tsx:54-71 | turning the flag from true to false captures a new simulator snapshot; nothing else changes |
| SensorData.SensorDataProvider.ConnectArduino | src/context/SensorDataContext.tsx:105-138 | a new callback, capturing the current thresholds, is created and registered with the transport |
| SensorData.SensorDataProvider.ConnectSettled | src/context/SensorDataContext.tsx:139-143 | resolved sets the flag, rejected clears it |
| SensorData.SensorDataProvider.DisconnectArduino | src/context/SensorDataContext.tsx:146-149 | the transport is torn down and the flag cleared |
| Analytics.Values | src/pages/Analytics.tsx:14 | one value per sample, in order |
| Analytics.SeqMin | src/pages/Analytics.tsx:15 | the minimum is one of the values and below all of them |
| Analytics.SeqMax | src/pages/Analytics.tsx:16 | the maximum is one of the values and above all of them |
| Analytics.SumBounds | src/pages/Analytics.tsx:17 | a sum of values in [lo, hi] lies in [n*lo, n*hi] |
| Analytics.MeanBetween | src/pages/Analytics.tsx:17 | the mean before rounding lies between the minimum and the maximum |
| Analytics.CalculateStats | src/pages/Analytics.tsx:11-20 | zeros when empty; otherwise min and max are attained bounds and avg is within 0.05 of the mean |
| Analytics.Lines | src/pages/Analytics.tsx:27-37 | the header line, then one comma-joined row per sample in order |
| Analytics.ExportShape | src/pages/Analytics.tsx:25-38 | read back by lines and commas, the export is the header and one three-field row per sample, in order |
| Analytics.RecentRowsNewestFirst | src/pages/Analytics.tsx:149 | the recent table holds min(5, n) samples, the newest first |
| Analytics.Badge | src/pages/Analytics.tsx:162-168 | "Normal" iff both statuses are normal, "Alert" otherwise |
| Chart.TimeRangeMs | src/components/ChartComponent.tsx:17-26 | the range is a positive whole number of minutes |
| Chart.TimeRangeMsTable | src/components/ChartComponent.tsx:17-26 | each offered label lasts the minutes it names; any other label means five minutes |
| Chart.Window | src/components/ChartComponent.tsx:32-34 | exactly the samples within the range are kept, in history order |
| Chart.WindowCounts | src/components/ChartComponent.tsx:32-34 | each in-window sample is kept as many times as the history holds it, and no other sample |
| Chart.WindowIsSuffix | src/components/ChartComponent.tsx:32-34 | over a time-ordered history the window is a suffix of the history |
| Chart.Points | src/components/ChartComponent.tsx:46-49 | one point per sample: its time and the chosen metric |
| Chart.BuildChart | src/components/ChartComponent.tsx:41-147 | heart-rate dataset iff heart-rate or combined chart, temperature iff temperature or combined; y1 axis iff combined; hour unit iff "24h" |
| SystemStatus.ElapsedSeconds | src/components/SystemStatusCard.tsx:27 | whole seconds elapsed, rounded down |
| SystemStatus.TimeSinceLastUpdate | src/components/SystemStatusCard.tsx:20-38 | "No data" iff empty; otherwise just now / seconds / minutes / hours by the 5, 60 and 3600 second cut-offs, each count rounded down |
| SystemStatus.OnlyNewestMatters | src/components/SystemStatusCard.tsx:25 | only the newest sample's timestamp affects the text |
| SystemStatus.ToggleConnection | src/components/SystemStatusCard.tsx:12-18 | connected: tear down, clear the flag and restart the store's simulator from the current sample and thresholds; otherwise: create a new callback, start a connect that is still pending and keep the simulator's snapshot |
| HealthMetricCard.ClampPercent | src/components/HealthMetricCard.tsx:32 | the width lies in 0..100 and is left alone inside it |
| HealthMetricCard.Percentage | src/components/HealthMetricCard.tsx:31-32 | NaN iff value, min and max are equal; otherwise a width in 0..100 |
| HealthMetricCard.PercentageEnds | src/components/HealthMetricCard.tsx:31-32 | at or below the minimum the bar is empty; at or above the maximum it is full |
| HealthMetricCard.PercentageInsideScale | src/components/HealthMetricCard.tsx:31-32 | inside the scale the width is the rounded percentage, unclamped |
| HealthMetricCard.PercentageMonotone | src/components/HealthMetricCard.tsx:31-32 | a larger value never gives a narrower bar |
| HealthMetricCard.StatusLabel | src/components/HealthMetricCard.tsx:25-29 | the label is "Normal", "Low" or "High" exactly for the matching status |
| Scenarios.DeviceMessageExample | src/services/arduinoService.ts:24-28 | 130.6 bpm and 38.27 degrees become 131 and 38.3, both high under the defaults |
| Scenarios.ConnectionDrops | src/services/arduinoService.ts:40-46 | after open then close the store stays connected and the fallback simulator feeds it |
| Scenarios.ConnectionFails | src/context/SensorDataContext.tsx:140-143 | after an error the store is disconnected, yet the callback stays registered and the close starts a fallback simulation |
| Scenarios.StaleCallbackThresholds | src/services/arduinoService.ts:44 | a fallback started under the old thresholds still classifies its readings with them after the thresholds change and a new connect starts |
| Scenarios.DisconnectStopsFallback | src/services/arduinoService.ts:70-73 | after an explicit disconnect a running fallback stops at its next tick without emitting |

## Left out

- WebSocket creation, its fixed address, `socket.close()`'s own effects,
  console logging and the exception path of `new WebSocket`: the model
  assumes the socket is created, and events arrive as method calls.
- Events from an older socket after a newer connect: only the most recent
  socket's events are modelled. Handlers read only the shared cells, so an
  older socket behaves the same except for the promise it settles.
- `setInterval` timing, `clearInterval` of the store's interval on unmount,
  and `Math.random()`. Random draws are parameters, and the probability of
  a spike is not modelled.
- IEEE-754 doubles: arithmetic is on exact reals, so ties that binary
  rounding would break differently are not captured. Non-finite numbers from
  the device are not modelled either.
- `Date` and its formatting. Timestamps are integers, and `toISOString` is
  a function parameter. `Analytics.ExportShape` assumes that function writes
  no comma or line break. `toLocaleTimeString` in the recent table is not
  modelled.
- Rendering, animation, Chart.js construction and destruction, colours and
  fonts, and the export's Blob download.
- `getArduinoSetupInstructions` and the sketch text: these are constant
  strings with no behaviour.
- The promise is modelled as a settlement field. The `async` hand-off
  between the transport settling it and `connectArduino` continuing is the
  separate call `SensorDataProvider.ConnectSettled`.
- Chart.BuildChart: the `x` values are millisecond timestamps rather than
  `Date` objects, and only the titles and suggested bounds of the axes are
  modelled.
- SystemStatus.TimeSinceLastUpdate: it returns the bucket. The text the card
  prints for it (`LastUpdateText`) has no contract of its own.
- Analytics.CalculateStats: the mean is stated within 0.05 of the exact mean,
  not as the exact decimal `toFixed(1)` gives. That exact rounding is
  `Numbers.RoundTenths`, which the function uses.
