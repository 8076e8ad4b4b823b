/**
 * The device-side gateway's message handler (`ControlWS.onMessage`,
 * src/server/websockets/control-gateway.ts): a decision over untrusted bytes
 * that publishes at most one event.
 */
module ControlGateway {
  import opened Wrappers
  import opened Protocol
  import opened Bus

  /** The event the handler publishes for one message, or None when it only logs. */
  function OnMessage(m: Message): (e: Option<Event>)
    ensures e.Some? ==> m.isBinary && WellFramed(m.data) && FromDevice(e.value)
  {
    if !m.isBinary || |m.data| < 3 then None
    else
      var id := m.data[0];
      var payload := Payload(m.data);
      if |payload| != DeclaredLength(m.data) then None
      else if id == TelemetryId then
        if |payload| != 4 then None
        else Some(Telemetry(TelemetryData(payload[0], payload[1], payload[2], payload[3])))
      else if id == CameraChunkId then
        Some(Image(m.data))
      else if id == MotorControlId then
        if |payload| != 2 then None
        else Some(MotorControl(MotorControlData(payload[0], payload[1])))
      else if id == BatteryLevelId then
        if |payload| != 1 then None else Some(BatteryLevel(payload[0]))
      else if id == DistanceReadingId then
        if |payload| != 1 then None else Some(DistanceReading(payload[0]))
      else
        None
  }

  /** The handler's id dispatch: the ids that can produce an event at all. */
  predicate HandledId(id: byte)
  {
    id == TelemetryId || id == CameraChunkId || id == MotorControlId
    || id == BatteryLevelId || id == DistanceReadingId
  }

  lemma TextIgnored(data: seq<byte>)
    ensures OnMessage(Message(data, false)) == None
  {
  }

  lemma HeaderChecks(m: Message)
    requires m.isBinary
    requires |m.data| < 3 || |m.data| - 3 != LE16(m.data[1], m.data[2])
    ensures OnMessage(m) == None
  {
  }

  lemma UnhandledIdsIgnored(m: Message)
    requires |m.data| >= 1 && !HandledId(m.data[0])
    ensures OnMessage(m) == None
  {
  }

  /** A telemetry event is published exactly for the frame the telemetry builder makes. */
  lemma TelemetryIff(m: Message, t: TelemetryData)
    ensures OnMessage(m) == Some(Telemetry(t))
        <==> m.isBinary && m.data == MakeTelemetry(t.motor1, t.motor2, t.battery, t.distance)
  {
  }

  /** A motor-control event is published exactly for the frame the motor-control builder makes. */
  lemma MotorControlIff(m: Message, c: MotorControlData)
    ensures OnMessage(m) == Some(MotorControl(c))
        <==> m.isBinary && m.data == MakeMotorControl(c.motor1, c.motor2)
  {
  }

  lemma BatteryLevelIff(m: Message, level: byte)
    ensures OnMessage(m) == Some(BatteryLevel(level))
        <==> m.isBinary && m.data == [BatteryLevelId, 1, 0, level]
  {
  }

  lemma DistanceReadingIff(m: Message, distance: byte)
    ensures OnMessage(m) == Some(DistanceReading(distance))
        <==> m.isBinary && m.data == [DistanceReadingId, 1, 0, distance]
  {
  }

  /** Any well-framed camera chunk, whatever its payload size, is published whole, header included. */
  lemma ImageIff(m: Message, frame: seq<byte>)
    ensures OnMessage(m) == Some(Image(frame))
        <==> m.isBinary && WellFramed(m.data) && m.data[0] == CameraChunkId && frame == m.data
  {
  }

  /** The header-only chunk `[4, 0, 0]` passes: there is no minimum payload size. */
  lemma EmptyCameraChunkPublished()
    ensures OnMessage(Message([CameraChunkId, 0, 0], true)) == Some(Image([CameraChunkId, 0, 0]))
  {
  }
}
