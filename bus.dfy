/**
 * The messages the gateways receive and the events they publish on the shared
 * event bus (src/server/utils/event-bus.ts names them; the payload records
 * are the codec's).
 */
module Bus {
  import opened Protocol

  /** One WebSocket message as the `ws` library hands it over: its bytes and whether it came as a binary frame. */
  datatype Message = Message(data: seq<byte>, isBinary: bool)

  datatype Event =
    | Telemetry(telemetry: TelemetryData)
    | Image(frame: seq<byte>)
    | MotorControl(motors: MotorControlData)
    | BatteryLevel(battery: byte)
    | DistanceReading(distance: byte)
    | CameraControlRequest(request: seq<byte>)
    | ClientCommand(command: seq<byte>)
    | ClientCount(count: nat)

  /** Events published by the device-side gateway. */
  predicate FromDevice(e: Event)
  {
    e.Telemetry? || e.Image? || e.MotorControl? || e.BatteryLevel? || e.DistanceReading?
  }
}
