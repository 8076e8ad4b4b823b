/**
 * The earlier single-file relay (server-old/server.js). Its codec helpers,
 * `BaseWS` bookkeeping and `ClientWS.onMessage` are the same code as the
 * current server's and are modelled once, by Protocol, BaseWebSocket and
 * ClientGateway. What differs is modelled here: the device-side handler,
 * which drops camera chunks with an empty payload, and the image routing,
 * which forwards without a second check and logs through a throttle created
 * anew on every image.
 */
module Legacy {
  import opened Wrappers
  import opened Protocol
  import opened Bus
  import opened Routing
  import ControlGateway
  import ClientGateway
  import Throttling

  /** The old `ControlWS.onMessage`. */
  function OnMessage(m: Message): (e: Option<Event>)
    ensures e.Some? ==> m.isBinary && WellFramed(m.data) && FromDevice(e.value)
  {
    if !m.isBinary || |m.data| < 3 then None
    else
      var id := m.data[0];
      var payload := Payload(m.data);
      if |payload| != DeclaredLength(m.data) then None
      else if id == TelemetryId then
        if |payload| != 4 then None
        else Some(Telemetry(TelemetryData(payload[0], payload[1], payload[2], payload[3])))
      else if id == CameraChunkId then
        if |payload| < 1 then None else Some(Image(m.data))
      else if id == MotorControlId then
        if |payload| != 2 then None
        else Some(MotorControl(MotorControlData(payload[0], payload[1])))
      else if id == BatteryLevelId then
        if |payload| != 1 then None else Some(BatteryLevel(payload[0]))
      else if id == DistanceReadingId then
        if |payload| != 1 then None else Some(DistanceReading(payload[0]))
      else
        None
  }

  /** The old `wsBus` handlers: as now, except that an image goes to the viewers with no check. */
  function Route(e: Event): (b: Option<Broadcast>)
    ensures e.Image? ==> b == Some(Broadcast(Clients, e.frame))
    ensures !e.Image? ==> b == Routing.Route(e)
  {
    match e
    case CameraControlRequest(buf) => Some(Broadcast(Devices, buf))
    case Telemetry(t) =>
      Some(Broadcast(Clients, [2, 4, 0, t.motor1, t.motor2, t.battery, t.distance]))
    case MotorControl(_) => None
    case ClientCommand(buf) => Some(Broadcast(Devices, buf))
    case Image(image) => Some(Broadcast(Clients, image))
    case BatteryLevel(_) => None
    case DistanceReading(_) => None
    case ClientCount(_) => None
  }

  /** The old `ClientWS` connection handlers, which write the camera requests as literal bytes. */
  function OnConnection(size: nat): seq<Event>
  {
    [ClientCount(size)] + if size == 1 then [CameraControlRequest([3, 1, 0, 1])] else []
  }

  function OnDisconnect(size: nat): seq<Event>
  {
    [ClientCount(size)] + if size == 0 then [CameraControlRequest([3, 1, 0, 0])] else []
  }

  /** The old image handler at time `now`: a fresh throttle logs the size, then the image is broadcast. */
  method OnImage(image: seq<byte>, now: int) returns (b: Broadcast, logged: bool)
    ensures b == Broadcast(Clients, image)
    ensures logged <==> now >= 1000
  {
    var logImageSize := new Throttling.Throttle(1000);
    logged := logImageSize.Call(now);
    b := Broadcast(Clients, image);
  }

  function RelayDeviceMessage(m: Message): Option<Broadcast>
  {
    match OnMessage(m)
    case None => None
    case Some(e) => Route(e)
  }

  // How the two servers differ

  /** The viewer-side handlers publish the same events in both servers. */
  lemma ClientHandlersAgree(size: nat)
    ensures OnConnection(size) == ClientGateway.OnConnection(size)
    ensures OnDisconnect(size) == ClientGateway.OnDisconnect(size)
  {
  }

  /** The device-side handlers agree on every message except a well-framed, empty camera chunk. */
  lemma DeviceHandlersAgreeExceptEmptyChunk(m: Message)
    ensures OnMessage(m) != ControlGateway.OnMessage(m)
        <==> m.isBinary && m.data == [CameraChunkId, 0, 0]
  {
  }

  /** Whatever the old server relays from a device reaches the viewers unchanged. */
  lemma DeviceFramesRelayedUnchanged(m: Message)
    ensures RelayDeviceMessage(m).Some? ==> RelayDeviceMessage(m) == Some(Broadcast(Clients, m.data))
  {
    var e := OnMessage(m);
    if e.Some? && e.value.Telemetry? {
      DeviceHandlersAgreeExceptEmptyChunk(m);
      ControlGateway.TelemetryIff(m, e.value.telemetry);
    }
  }

  /**
   * The old server relays a camera chunk exactly when it is well framed with a
   * payload of at least 1 byte; the current one needs at least 2. A 1-byte
   * chunk is where they part.
   */
  lemma CameraChunkRelayDiffers(m: Message)
    requires m.isBinary && |m.data| >= 1 && m.data[0] == CameraChunkId
    ensures RelayDeviceMessage(m).Some? <==> WellFramed(m.data) && |m.data| >= 4
    ensures Routing.RelayDeviceMessage(m).Some? <==> WellFramed(m.data) && |m.data| >= 5
  {
  }

  lemma OneByteChunkOnlyRelayedByOldServer()
    ensures RelayDeviceMessage(Message([CameraChunkId, 1, 0, 9], true)).Some?
    ensures Routing.RelayDeviceMessage(Message([CameraChunkId, 1, 0, 9], true)) == None
  {
  }
}
