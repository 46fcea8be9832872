/** The device transport (`arduinoService.ts`): the module-level `socket` and
    `dataCallback` cells, the socket's open/error/close/message handlers, the
    explicit disconnect, and the fallback simulator intervals that a close
    starts. Socket events arrive as method calls; the WebSocket itself, its
    address and the JSON parser are outside the model. */
module ArduinoService {
  import opened Options
  import opened Numbers
  import opened RandomWalk

  /** A decoded sample as the transport hands it to the data callback:
      an integer heart rate and a temperature in tenths of a degree. */
  datatype Reading = Reading(heartRate: int, temperatureTenths: int)

  /** One field of the object `JSON.parse` produced. */
  datatype JsonValue = Missing | JsonNumber(n: real) | OtherJson

  /** An inbound message: text `JSON.parse` rejects (or that yields `null`,
      whose field access throws), or a parsed value with its two fields. */
  datatype Message = Unparseable | Parsed(heartRate: JsonValue, temperature: JsonValue)

  /** The identity of a registered data callback (a closure of the store). */
  type Callback = nat

  /** A value handed to a callback. */
  datatype Delivery = Delivery(callback: Callback, reading: Reading)

  datatype Phase = Connecting | Open | Closed

  /** The `socket` cell: `null` or the WebSocket most recently created. */
  datatype Socket = NoSocket | Live(phase: Phase)

  /** The promise `connectToArduino` returned. */
  datatype Settlement = Pending | Resolved | Rejected

  /** One `startSimulation` interval: the callback it captured, the walk's
      last values, and whether the interval is still set. */
  datatype Simulation = Simulation(callback: Callback, lastHeartRate: int, lastTemperatureTenths: int, running: bool)

  const FallbackSeedHeartRate: int := 72
  const FallbackSeedTemperatureTenths: int := 265

  /** The body of `onmessage` between parsing and the callback: a message
      passes only when both fields are numbers; the heart rate is rounded to
      an integer and the temperature to one decimal. */
  function Decode(msg: Message): (r: Option<Reading>)
    ensures r.Some? <==> msg.Parsed? && msg.heartRate.JsonNumber? && msg.temperature.JsonNumber?
    ensures r.Some? ==> r.value.heartRate as real - 0.5 <= msg.heartRate.n < r.value.heartRate as real + 0.5
    ensures r.Some? ==> -0.5 <= 10.0 * msg.temperature.n - r.value.temperatureTenths as real <= 0.5
  {
    match msg
    case Parsed(JsonNumber(hr), JsonNumber(t)) => Some(Reading(Round(hr), RoundTenths(t)))
    case _ => None
  }

  /** How a device that already sends an integer heart rate and a one-decimal
      temperature writes a reading. */
  function Encode(r: Reading): Message
  {
    Parsed(JsonNumber(r.heartRate as real), JsonNumber(r.temperatureTenths as real / 10.0))
  }

  /** Decoding leaves such a message's values unchanged. */
  lemma DecodeEncode(r: Reading)
    ensures Decode(Encode(r)) == Some(r)
  {
    RoundOfInt(r.heartRate);
    RoundTenthsOfTenths(r.temperatureTenths);
  }

  /** One interval tick of a running simulation whose callback is still
      registered: each metric takes one random-walk step from its last value. */
  function Step(sim: Simulation, hr: Draws, temp: Draws): (next: Simulation)
    ensures next.callback == sim.callback && next.running == sim.running
    ensures next.lastHeartRate == NextHeartRate(sim.lastHeartRate, hr)
    ensures next.lastTemperatureTenths == NextTemperature(sim.lastTemperatureTenths, temp)
    ensures 40 <= next.lastHeartRate <= 120 && 150 <= next.lastTemperatureTenths <= 400
  {
    sim.(lastHeartRate := NextHeartRate(sim.lastHeartRate, hr),
         lastTemperatureTenths := NextTemperature(sim.lastTemperatureTenths, temp))
  }

  /** A fallback simulation starts inside the walk's ranges and stays there,
      and with draws from `Math.random()` each tick moves the heart rate by at
      most 7 bpm and the temperature by at most 1.2 degrees. */
  lemma StepMovesLittle(sim: Simulation, hr: Draws, temp: Draws)
    requires 40 <= sim.lastHeartRate <= 120 && 150 <= sim.lastTemperatureTenths <= 400
    requires Uniform(hr) && Uniform(temp)
    ensures -7 <= Step(sim, hr, temp).lastHeartRate - sim.lastHeartRate <= 7
    ensures -12 <= Step(sim, hr, temp).lastTemperatureTenths - sim.lastTemperatureTenths <= 12
  {
    HeartRateStepBounded(sim.lastHeartRate, hr);
    TemperatureStepBounded(sim.lastTemperatureTenths, temp);
  }

  class Service {
    var socket: Socket
    var dataCallback: Option<Callback>
    /** The promise of the latest `connectToArduino` call, if any. */
    var connection: Option<Settlement>
    var simulations: seq<Simulation>

    constructor ()
      ensures socket == NoSocket && dataCallback == None && connection == None && simulations == []
    {
      socket := NoSocket;
      dataCallback := None;
      connection := None;
      simulations := [];
    }

    /** `connectToArduino(cb)`: create the socket, register the callback and
        return a pending promise. A previous socket is simply replaced. */
    method Connect(cb: Callback)
      modifies this
      ensures socket == Live(Connecting) && dataCallback == Some(cb) && connection == Some(Pending)
      ensures simulations == old(simulations)
    {
      socket := Live(Connecting);
      dataCallback := Some(cb);
      connection := Some(Pending);
    }

    /** `onopen`: resolve the promise (a settled promise stays as it is). */
    method OnOpen()
      modifies this
      ensures socket == (if old(socket).Live? then Live(Open) else old(socket))
      ensures connection == (if old(connection) == Some(Pending) then Some(Resolved) else old(connection))
      ensures dataCallback == old(dataCallback) && simulations == old(simulations)
    {
      if socket.Live? {
        socket := Live(Open);
      }
      if connection == Some(Pending) {
        connection := Some(Resolved);
      }
    }

    /** `onerror`: reject the promise. The socket and the callback stay
        registered. */
    method OnError()
      modifies this
      ensures connection == (if old(connection) == Some(Pending) then Some(Rejected) else old(connection))
      ensures socket == old(socket) && dataCallback == old(dataCallback) && simulations == old(simulations)
    {
      if connection == Some(Pending) {
        connection := Some(Rejected);
      }
    }

    /** `onclose`: start a fallback simulation, seeded at 72 bpm and 26.5
        degrees, only when a callback is still registered. Nothing else
        changes: in particular the store is not told. */
    method OnClose()
      modifies this
      ensures socket == (if old(socket).Live? then Live(Closed) else old(socket))
      ensures simulations == old(simulations) +
        (if old(dataCallback).Some?
         then [Simulation(old(dataCallback).value, FallbackSeedHeartRate, FallbackSeedTemperatureTenths, true)]
         else [])
      ensures dataCallback == old(dataCallback) && connection == old(connection)
    {
      if socket.Live? {
        socket := Live(Closed);
      }
      if dataCallback.Some? {
        simulations := simulations + [Simulation(dataCallback.value, FallbackSeedHeartRate, FallbackSeedTemperatureTenths, true)];
      }
    }

    /** `onmessage`: what, if anything, is handed to the registered callback.
        A message that fails to parse or lacks a numeric field is dropped
        without changing any state. */
    method OnMessage(msg: Message) returns (forwarded: Option<Delivery>)
      ensures forwarded.Some? <==> dataCallback.Some? && Decode(msg).Some?
      ensures forwarded.Some? ==> forwarded.value == Delivery(dataCallback.value, Decode(msg).value)
    {
      if dataCallback.Some? {
        var decoded := Decode(msg);
        if decoded.Some? {
          return Some(Delivery(dataCallback.value, decoded.value));
        }
      }
      return None;
    }

    /** `disconnectFromArduino`: close and forget the socket, forget the
        callback. Calling it again changes nothing. */
    method Disconnect()
      modifies this
      ensures socket == NoSocket && dataCallback == None
      ensures connection == old(connection) && simulations == old(simulations)
    {
      if socket.Live? {
        socket := NoSocket;
      }
      dataCallback := None;
    }

    /** One tick of the `i`-th simulation interval. A tick that finds no
        callback registered clears its interval and emits nothing; otherwise
        it takes one step and hands the new values to the callback it
        captured when it started (not to the one registered now). */
    method SimulationTick(i: nat, hr: Draws, temp: Draws) returns (emitted: Option<Delivery>)
      requires i < |simulations|
      modifies this
      ensures |simulations| == |old(simulations)|
      ensures forall j :: 0 <= j < |simulations| && j != i ==> simulations[j] == old(simulations)[j]
      ensures !old(simulations)[i].running ==> emitted == None && simulations[i] == old(simulations)[i]
      ensures old(simulations)[i].running && dataCallback.None? ==>
        emitted == None && simulations[i] == old(simulations)[i].(running := false)
      ensures old(simulations)[i].running && dataCallback.Some? ==>
        simulations[i] == Step(old(simulations)[i], hr, temp) &&
        emitted == Some(Delivery(simulations[i].callback,
                                 Reading(simulations[i].lastHeartRate, simulations[i].lastTemperatureTenths)))
      ensures socket == old(socket) && dataCallback == old(dataCallback) && connection == old(connection)
    {
      var sim := simulations[i];
      if !sim.running {
        return None;
      }
      if dataCallback.None? {
        simulations := simulations[i := sim.(running := false)];
        return None;
      }
      var next := Step(sim, hr, temp);
      simulations := simulations[i := next];
      emitted := Some(Delivery(next.callback, Reading(next.lastHeartRate, next.lastTemperatureTenths)));
    }
  }
}
