/**
 * The event-bus handlers wired by `setupWebSocketModule`
 * (src/server/websockets/websocket-module.ts): each event causes at most one
 * broadcast, to the device connections or to the viewer connections.
 */
module Routing {
  import opened Wrappers
  import opened Protocol
  import opened Bus
  import ControlGateway
  import ClientGateway

  datatype Target = Devices | Clients

  /** One call of `broadcast` on the gateway of `target`, with these bytes. */
  datatype Broadcast = Broadcast(target: Target, data: seq<byte>)

  /** The image handler's own check: at least 2 payload bytes, and exactly as many as declared. */
  predicate ImageForwardable(image: seq<byte>)
  {
    var payloadLength := if |image| >= 3 then |image| - 3 else 0;
    payloadLength >= 2 && payloadLength == LE16(image[1], image[2])
  }

  /** The broadcast an event causes. Viewers only ever receive well-formed frames. */
  function Route(e: Event): (b: Option<Broadcast>)
    ensures b.Some? ==> (b.value.target == Devices <==> e.CameraControlRequest? || e.ClientCommand?)
    ensures b.Some? && b.value.target == Clients ==> WellFramed(b.value.data)
  {
    match e
    case CameraControlRequest(buf) => Some(Broadcast(Devices, buf))
    case Telemetry(t) =>
      Some(Broadcast(Clients, [2, 4, 0, t.motor1, t.motor2, t.battery, t.distance]))
    case MotorControl(_) => None
    case ClientCommand(buf) => Some(Broadcast(Devices, buf))
    case Image(image) =>
      if ImageForwardable(image) then Some(Broadcast(Clients, image)) else None
    case BatteryLevel(_) => None
    case DistanceReading(_) => None
    case ClientCount(_) => None
  }

  /** Telemetry is re-encoded byte-for-byte as the codec's telemetry builder would. */
  lemma TelemetryReencoded(t: TelemetryData)
    ensures Route(Telemetry(t)) == Some(Broadcast(Clients, MakeTelemetry(t.motor1, t.motor2, t.battery, t.distance)))
  {
  }

  /** Camera requests and viewer commands go to the device side unchanged. */
  lemma DeviceBoundUnchanged(buf: seq<byte>)
    ensures Route(CameraControlRequest(buf)) == Some(Broadcast(Devices, buf))
    ensures Route(ClientCommand(buf)) == Some(Broadcast(Devices, buf))
  {
  }

  lemma SilentEvents(c: MotorControlData, level: byte, distance: byte, n: nat)
    ensures Route(MotorControl(c)) == None
    ensures Route(BatteryLevel(level)) == None
    ensures Route(DistanceReading(distance)) == None
    ensures Route(ClientCount(n)) == None
  {
  }

  lemma ImageRouteIff(image: seq<byte>)
    ensures Route(Image(image)).Some?
        <==> |image| >= 5 && WellFramed(image)
    ensures Route(Image(image)).Some? ==> Route(Image(image)).value == Broadcast(Clients, image)
  {
  }

  // End to end: a gateway's handler followed by the routing

  /** What one message from a device connection makes the relay broadcast. */
  function RelayDeviceMessage(m: Message): Option<Broadcast>
  {
    match ControlGateway.OnMessage(m)
    case None => None
    case Some(e) => Route(e)
  }

  /** What one message from a viewer connection makes the relay broadcast. */
  function RelayClientMessage(m: Message): Option<Broadcast>
  {
    match ClientGateway.OnMessage(m)
    case None => None
    case Some(e) => Route(e)
  }

  /** Whatever a device sends is relayed, if at all, to the viewers only and byte-identical. */
  lemma DeviceFramesRelayedUnchanged(m: Message)
    ensures RelayDeviceMessage(m).Some? ==> RelayDeviceMessage(m) == Some(Broadcast(Clients, m.data))
  {
    var e := ControlGateway.OnMessage(m);
    if e.Some? && e.value.Telemetry? {
      ControlGateway.TelemetryIff(m, e.value.telemetry);
    }
  }

  /** A telemetry frame from the device reaches the viewers byte-for-byte. */
  lemma TelemetryEndToEnd(m1: byte, m2: byte, battery: byte, distance: byte)
    ensures RelayDeviceMessage(Message(MakeTelemetry(m1, m2, battery, distance), true))
         == Some(Broadcast(Clients, MakeTelemetry(m1, m2, battery, distance)))
  {
  }

  /**
   * For camera chunks the routing's own length check only adds the 2-byte
   * minimum: a chunk is relayed exactly when it is well framed and carries at
   * least 2 payload bytes. Chunks of 0 or 1 payload bytes pass the gateway and
   * are then dropped.
   */
  lemma CameraChunkEndToEnd(m: Message)
    requires m.isBinary && |m.data| >= 1 && m.data[0] == CameraChunkId
    ensures ControlGateway.OnMessage(m).Some? <==> WellFramed(m.data)
    ensures RelayDeviceMessage(m).Some? <==> WellFramed(m.data) && |m.data| >= 5
  {
  }

  /** The inner chunk length is checked nowhere on the way: this chunk declares 5 image bytes and carries 1. */
  lemma InnerChunkLengthUnchecked()
    ensures ParseCameraChunk(Payload([CameraChunkId, 3, 0, 5, 0, 9])) == None
    ensures RelayDeviceMessage(Message([CameraChunkId, 3, 0, 5, 0, 9], true))
         == Some(Broadcast(Clients, [CameraChunkId, 3, 0, 5, 0, 9]))
  {
  }

  /** A viewer's message reaches the device side exactly when it is a binary id-5 or id-6 frame of 3 or more bytes, and then verbatim. */
  lemma ClientCommandEndToEnd(m: Message)
    ensures RelayClientMessage(m).Some?
        <==> m.isBinary && |m.data| >= 3 && (m.data[0] == MotorControlId || m.data[0] == MoveControlId)
    ensures RelayClientMessage(m).Some? ==> RelayClientMessage(m) == Some(Broadcast(Devices, m.data))
  {
  }
}
