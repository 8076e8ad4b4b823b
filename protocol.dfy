/**
 * The relay's binary frame protocol (src/server/utils/message-protocol.ts).
 *
 * A frame is one WebSocket message: byte 0 is the message id, bytes 1-2 the
 * payload length as a little-endian 16-bit number, and the payload follows.
 * The builders take byte-range arguments; JavaScript's `Buffer.from` would
 * reduce larger numbers modulo 256, which the model does not need.
 */
module Protocol {
  import opened Wrappers

  type byte = x: int | 0 <= x < 256

  // Message ids (MSG_ID)
  const UnknownId: byte := 0
  const MotorStateId: byte := 1
  const TelemetryId: byte := 2
  const CameraControlId: byte := 3
  const CameraChunkId: byte := 4
  const MotorControlId: byte := 5
  const MoveControlId: byte := 6
  const BatteryLevelId: byte := 7
  const DistanceReadingId: byte := 8

  /** The number `lo | (hi << 8)` reads from two bytes. */
  function LE16(lo: byte, hi: byte): (v: nat)
    ensures v < 0x1_0000
  {
    lo + 256 * hi
  }

  /** `n & 0xFF`: the low byte of a non-negative number. */
  function LowByte(n: nat): byte { n % 256 }

  /** `(n >> 8) & 0xFF`: the second byte of a non-negative number. */
  function HighByte(n: nat): byte { (n / 256) % 256 }

  /** Splitting a number into its two low bytes and reading them back keeps it modulo 2^16. */
  lemma LE16OfBytes(n: nat)
    ensures LE16(LowByte(n), HighByte(n)) == n % 0x1_0000
  {
  }

  /** The payload length a frame declares in bytes 1-2. */
  function DeclaredLength(frame: seq<byte>): nat
    requires |frame| >= 3
  {
    LE16(frame[1], frame[2])
  }

  /** The bytes after the 3-byte header (`subarray(3)`). */
  function Payload(frame: seq<byte>): seq<byte>
    requires |frame| >= 3
  {
    frame[3..]
  }

  /** A frame has a header and declares exactly the number of payload bytes it carries. */
  predicate WellFramed(frame: seq<byte>)
  {
    |frame| >= 3 && |Payload(frame)| == DeclaredLength(frame)
  }

  datatype TelemetryData = TelemetryData(motor1: byte, motor2: byte, battery: byte, distance: byte)
  datatype CameraControlData = CameraControlData(on: byte)
  datatype MotorControlData = MotorControlData(motor1: byte, motor2: byte)
  datatype MoveControlData = MoveControlData(cmd: byte)
  datatype CameraChunkData = CameraChunkData(chunkLen: nat, data: seq<byte>)

  // Builders

  function MakeTelemetry(m1: byte, m2: byte, battery: byte, distance: byte): (r: seq<byte>)
    ensures WellFramed(r) && r[0] == TelemetryId && DeclaredLength(r) == 4
    ensures Payload(r) == [m1, m2, battery, distance]
  {
    [TelemetryId, 4, 0, m1, m2, battery, distance]
  }

  function MakeCameraControl(on: bool): (r: seq<byte>)
    ensures WellFramed(r) && r[0] == CameraControlId && DeclaredLength(r) == 1
    ensures Payload(r) == [if on then 1 else 0]
  {
    [CameraControlId, 1, 0, if on then 1 else 0]
  }

  function MakeMotorControl(m1: byte, m2: byte): (r: seq<byte>)
    ensures WellFramed(r) && r[0] == MotorControlId && DeclaredLength(r) == 2
    ensures Payload(r) == [m1, m2]
  {
    [MotorControlId, 2, 0, m1, m2]
  }

  function MakeMoveControl(cmd: byte): (r: seq<byte>)
    ensures WellFramed(r) && r[0] == MoveControlId && DeclaredLength(r) == 1
    ensures Payload(r) == [cmd]
  {
    [MoveControlId, 1, 0, cmd]
  }

  /**
   * A camera chunk: outer length |jpeg| + 2, then the inner chunk length |jpeg|,
   * both written as two bytes masked to 8 bits each, then the image bytes.
   */
  function MakeCameraChunk(jpeg: seq<byte>): (r: seq<byte>)
    ensures |r| == |jpeg| + 5 && r[0] == CameraChunkId
    ensures LE16(r[1], r[2]) == (|jpeg| + 2) % 0x1_0000
    ensures LE16(r[3], r[4]) == |jpeg| % 0x1_0000
    ensures r[5..] == jpeg
  {
    LE16OfBytes(|jpeg| + 2);
    LE16OfBytes(|jpeg|);
    var header := [CameraChunkId, LowByte(|jpeg| + 2), HighByte(|jpeg| + 2), LowByte(|jpeg|), HighByte(|jpeg|)];
    header + jpeg
  }

  // Parsers: each takes the payload (the bytes after the header)

  function ParseTelemetry(payload: seq<byte>): (r: Option<TelemetryData>)
    ensures r.None? <==> |payload| != 4
    ensures r.Some? ==> [r.value.motor1, r.value.motor2, r.value.battery, r.value.distance] == payload
  {
    if |payload| != 4 then None
    else Some(TelemetryData(payload[0], payload[1], payload[2], payload[3]))
  }

  function ParseCameraControl(payload: seq<byte>): (r: Option<CameraControlData>)
    ensures r.None? <==> |payload| != 1
    ensures r.Some? ==> [r.value.on] == payload
  {
    if |payload| != 1 then None else Some(CameraControlData(payload[0]))
  }

  function ParseMotorControl(payload: seq<byte>): (r: Option<MotorControlData>)
    ensures r.None? <==> |payload| != 2
    ensures r.Some? ==> [r.value.motor1, r.value.motor2] == payload
  {
    if |payload| != 2 then None else Some(MotorControlData(payload[0], payload[1]))
  }

  function ParseMoveControl(payload: seq<byte>): (r: Option<MoveControlData>)
    ensures r.None? <==> |payload| != 1
    ensures r.Some? ==> [r.value.cmd] == payload
  {
    if |payload| != 1 then None else Some(MoveControlData(payload[0]))
  }

  function ParseCameraChunk(payload: seq<byte>): (r: Option<CameraChunkData>)
    ensures r.None? <==> |payload| < 2 || |payload| - 2 != LE16(payload[0], payload[1])
    ensures r.Some? ==> r.value.chunkLen == |payload| - 2 && r.value.data == payload[2..]
  {
    if |payload| < 2 then None
    else
      var chunkLen := LE16(payload[0], payload[1]);
      var data := payload[2..];
      if |data| != chunkLen then None else Some(CameraChunkData(chunkLen, data))
  }

  // Properties of the codec

  lemma CameraControlBytes()
    ensures MakeCameraControl(true) == [3, 1, 0, 1]
    ensures MakeCameraControl(false) == [3, 1, 0, 0]
  {
  }

  lemma TelemetryRoundTrip(m1: byte, m2: byte, battery: byte, distance: byte)
    ensures ParseTelemetry(Payload(MakeTelemetry(m1, m2, battery, distance)))
         == Some(TelemetryData(m1, m2, battery, distance))
  {
  }

  lemma MotorControlRoundTrip(m1: byte, m2: byte)
    ensures ParseMotorControl(Payload(MakeMotorControl(m1, m2))) == Some(MotorControlData(m1, m2))
  {
  }

  lemma MoveControlRoundTrip(cmd: byte)
    ensures ParseMoveControl(Payload(MakeMoveControl(cmd))) == Some(MoveControlData(cmd))
  {
  }

  lemma CameraControlRoundTrip(on: bool)
    ensures ParseCameraControl(Payload(MakeCameraControl(on))) == Some(CameraControlData(if on then 1 else 0))
  {
  }

  /** A chunk frame declares its true length exactly when the image fits the 16-bit field. */
  lemma CameraChunkWellFramedIff(jpeg: seq<byte>)
    ensures WellFramed(MakeCameraChunk(jpeg)) <==> |jpeg| <= 0xFFFD
  {
    var r := MakeCameraChunk(jpeg);
    assert |Payload(r)| == |jpeg| + 2;
    assert DeclaredLength(r) == (|jpeg| + 2) % 0x1_0000;
    FitsIn16Bits(|jpeg| + 2);
  }

  lemma FitsIn16Bits(n: nat)
    ensures n % 0x1_0000 == n <==> n < 0x1_0000
  {
  }

  lemma CameraChunkRoundTrip(jpeg: seq<byte>)
    requires |jpeg| <= 0xFFFD
    ensures ParseCameraChunk(Payload(MakeCameraChunk(jpeg))) == Some(CameraChunkData(|jpeg|, jpeg))
  {
    var r := MakeCameraChunk(jpeg);
    var p := Payload(r);
    assert p[0] == r[3] && p[1] == r[4];
    assert LE16(p[0], p[1]) == |jpeg| % 0x1_0000;
    FitsIn16Bits(|jpeg|);
    assert p[2..] == r[5..] == jpeg;
  }

  /** From 65536 image bytes on, the masked inner length no longer matches and the parser refuses the payload. */
  lemma OversizedCameraChunkNotParsed(jpeg: seq<byte>)
    requires |jpeg| >= 0x1_0000
    ensures ParseCameraChunk(Payload(MakeCameraChunk(jpeg))) == None
  {
  }
}
