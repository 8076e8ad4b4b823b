# Robot relay: frame protocol, gateways and routing

This project models the core of a relay server that sits between a robot
("the device", connected on the `/wsc` socket) and browser viewers
("clients", connected on the `/ws` socket). Both sides speak a small binary
frame protocol: byte 0 is a message id, bytes 1-2 are the payload length as a
little-endian 16-bit number, then the payload follows. The model covers:

- the frame codec: the `make*` builders, the length-checked `parse*` readers,
  and `throttle` (module `Protocol`, `Throttling`);
- the device-side message handler `ControlWS.onMessage`, a function from one
  message to at most one event (`ControlGateway`);
- the viewer-side handlers of `ClientWS`: count-driven camera on/off requests
  and command forwarding (`ClientGateway`);
- the shared connection bookkeeping of `BaseWS` (the `clients` set and
  `broadcast`) as a class (`BaseWebSocket.Gateway`);
- the event-bus handlers of `setupWebSocketModule`, which turn each event into
  at most one broadcast (`Routing`), and the two gateways joined by those
  handlers (`Relay`);
- the release cooldown set of `device-utils.js` with its timers made explicit
  (`DeviceCooldown`);
- the earlier single-file server `server-old/server.js`, where it differs from
  the current one (`Legacy`).

Sockets are objects seen only through an "open" flag (`readyState === OPEN`).
The clock is a parameter. Messages are `seq<byte>` with a flag saying whether
they arrived as binary.

Where the design description and the code disagree, the model follows the code:

- The design describes a device registry with per-client ownership, owner-only
  delivery and a cooldown consulted on assume and register. The code has none
  of this. Routing broadcasts to every connection of the other side, the camera
  follows the viewer count, and nothing calls the cooldown functions.
- The design says a camera chunk's inner 2-byte length must match its data.
  On the relay path nothing checks it. The routing re-checks only the outer
  length, which the gateway already checked (`Routing.InnerChunkLengthUnchecked`).
- The design has the cooldown timer reset when a device is released again.
  The code schedules one more timer and never cancels the earlier one
  (`DeviceCooldown.EarlierTimerClearsRemark`).

## Model

| member | source | states |
|---|---|---|
| Protocol.LE16 | src/server/utils/message-protocol.ts:104 | `lo \| (hi << 8)` of two bytes is below 65536 |
| Protocol.LE16OfBytes | src/server/utils/message-protocol.ts:67-68 | masking a length to its two low bytes and reading them back gives the length modulo 65536 |
| Protocol.MakeTelemetry | src/server/utils/message-protocol.ts:34-39 | the frame has id 2, declares 4 and carries exactly the four given bytes |
| Protocol.MakeCameraControl | src/server/utils/message-protocol.ts:41-46 | the frame has id 3, declares 1 and carries 1 for on, 0 for off |
| Protocol.MakeMotorControl | src/server/utils/message-protocol.ts:48-53 | the frame has id 5, declares 2 and carries the two motor bytes |
| Protocol.MakeMoveControl | src/server/utils/message-protocol.ts:55-60 | the frame has id 6, declares 1 and carries the command byte |
| Protocol.MakeCameraChunk | src/server/utils/message-protocol.ts:62-71 | length \|j\|+5; byte 0 is 4; bytes 1-2 read back as (\|j\|+2) mod 65536; bytes 3-4 as \|j\| mod 65536; the rest is j |
| Protocol.ParseTelemetry | src/server/utils/message-protocol.ts:74-82 | null exactly when the payload is not 4 bytes; otherwise the fields are the payload bytes in order |
| Protocol.ParseCameraControl | src/server/utils/message-protocol.ts:84-87 | null exactly when the payload is not 1 byte; otherwise `on` is that byte |
| Protocol.ParseMotorControl | src/server/utils/message-protocol.ts:89-95 | null exactly when the payload is not 2 bytes; otherwise the two motor bytes |
| Protocol.ParseMoveControl | src/server/utils/message-protocol.ts:97-100 | null exactly when the payload is not 1 byte; otherwise `cmd` is that byte |
| Protocol.ParseCameraChunk | src/server/utils/message-protocol.ts:102-108 | null exactly when the payload is under 2 bytes or its length minus 2 differs from its first two bytes read as LE16; otherwise chunk_len and the data after them |
| Protocol.CameraControlBytes | src/server/utils/message-protocol.ts:41-46 | camera-on is exactly [3,1,0,1] and camera-off exactly [3,1,0,0] |
| Protocol.TelemetryRoundTrip | src/server/utils/message-protocol.ts:34-82 | parsing the payload of a built telemetry frame returns the original four fields |
| Protocol.CameraControlRoundTrip | src/server/utils/message-protocol.ts:41-87 | parsing a built camera-control payload returns 1 or 0 |
| Protocol.MotorControlRoundTrip | src/server/utils/message-protocol.ts:48-95 | parsing a built motor-control payload returns the two motor bytes |
| Protocol.MoveControlRoundTrip | src/server/utils/message-protocol.ts:55-100 | parsing a built move-control payload returns the command |
| Protocol.CameraChunkWellFramedIff | src/server/utils/message-protocol.ts:62-71 | a built chunk declares its true payload length exactly when the image has at most 65533 bytes |
| Protocol.CameraChunkRoundTrip | src/server/utils/message-protocol.ts:62-108 | for images of at most 65533 bytes, parsing the chunk payload returns chunk_len = \|j\| and data = j |
| Protocol.OversizedCameraChunkNotParsed | src/server/utils/message-protocol.ts:62-108 | from 65536 image bytes on, the masked inner length makes the parser return null |
| Throttling.Throttle.constructor | src/server/utils/message-protocol.ts:111-112 | a new throttle has lastCall = 0 and the given delay |
| Throttling.Throttle.Call | src/server/utils/message-protocol.ts:113-120 | the call runs exactly when now − lastCall ≥ delay; lastCall becomes now only when it runs |
| Throttling.RunGap | src/server/utils/message-protocol.ts:113-120 | with delay ≥ 0, every call that runs is at least delay after the starting lastCall |
| Throttling.RunsSpaced | src/server/utils/message-protocol.ts:111-121 | with delay ≥ 0, any two calls that run are at least delay apart |
| Throttling.SuppressedCallsDoNotExtendWindow | src/server/utils/message-protocol.ts:115-118 | a suppressed call leaves lastCall as it was, so the next call is judged against the last run |
| ControlGateway.OnMessage | src/server/websockets/control-gateway.ts:31-113 | an event is published only for a binary, well-framed message, and only a device event |
| ControlGateway.TextIgnored | src/server/websockets/control-gateway.ts:110-112 | a text message publishes nothing |
| ControlGateway.HeaderChecks | src/server/websockets/control-gateway.ts:34-46 | a binary message under 3 bytes, or whose payload length differs from the declared LE16 length, publishes nothing |
| ControlGateway.UnhandledIdsIgnored | src/server/websockets/control-gateway.ts:107-108 | ids other than 2, 4, 5, 7 and 8 publish nothing |
| ControlGateway.TelemetryIff | src/server/websockets/control-gateway.ts:49-63 | a telemetry event with fields t is published exactly for the binary message `makeTelemetry(t)` |
| ControlGateway.ImageIff | src/server/websockets/control-gateway.ts:65-69 | an image event is published exactly for a binary, well-framed id-4 message, and carries the whole message |
| ControlGateway.EmptyCameraChunkPublished | src/server/websockets/control-gateway.ts:65-69 | a chunk with an empty payload still publishes an image |
| ControlGateway.MotorControlIff | src/server/websockets/control-gateway.ts:71-83 | a motor-control event is published exactly for the binary message `makeMotorControl(m1, m2)` |
| ControlGateway.BatteryLevelIff | src/server/websockets/control-gateway.ts:85-94 | a battery event with level b is published exactly for the binary message [7,1,0,b] |
| ControlGateway.DistanceReadingIff | src/server/websockets/control-gateway.ts:96-105 | a distance event with value d is published exactly for the binary message [8,1,0,d] |
| ClientGateway.OnConnection | src/server/websockets/client-gateway.ts:16-28 | the first event is the client count including the new connection; camera-on is requested exactly when that count is 1 |
| ClientGateway.OnDisconnect | src/server/websockets/client-gateway.ts:30-42 | the first event is the client count after the removal; camera-off is requested exactly when that count is 0 |
| ClientGateway.OnMessage | src/server/websockets/client-gateway.ts:44-55 | a message is forwarded exactly when it is binary, has at least 3 bytes and id 5 or 6, and then verbatim |
| ClientGateway.BuiltCommandsForwarded | src/server/websockets/client-gateway.ts:44-51 | every motor-control and move-control frame the builders make is forwarded unchanged |
| ClientGateway.CommandPayloadUnchecked | src/server/websockets/client-gateway.ts:46-51 | a motor command declaring 0 bytes is forwarded though the codec's parser rejects it |
| ClientGateway.StepRequests | src/server/websockets/client-gateway.ts:22-41 | one connect or disconnect requests a camera change exactly when it moves the count between 0 and non-zero, and the request is that new state |
| ClientGateway.CameraRequestsToggle | src/server/websockets/client-gateway.ts:16-42 | over connects of new and disconnects of present connections, each request flips the camera, and at the end the camera is on exactly when viewers remain |
| ClientGateway.CameraOnOffAlternate | src/server/websockets/client-gateway.ts:22-41 | starting with no viewers, the camera requests go on, off, on, … strictly alternating |
| BaseWebSocket.Gateway.constructor | src/server/websockets/base-websocket.ts:14-18 | a gateway starts with no connections |
| BaseWebSocket.Gateway.Connect | src/server/websockets/base-websocket.ts:20-38 | the connection joins `clients` (adding it again changes nothing) before the role's connection handler runs on the new size |
| BaseWebSocket.Gateway.Close | src/server/websockets/base-websocket.ts:31-35 | the connection leaves `clients` before the role's disconnect handler runs on the new size |
| BaseWebSocket.Gateway.Broadcast | src/server/websockets/base-websocket.ts:84-90 | sends once to each OPEN member of `clients` and to nothing else, and changes nothing |
| Routing.Route | src/server/websockets/websocket-module.ts:10-60 | camera requests and client commands, and nothing else, go to the device side; everything sent to viewers is well framed |
| Routing.TelemetryReencoded | src/server/websockets/websocket-module.ts:16-26 | a telemetry event goes to the viewers as exactly `makeTelemetry` of its fields |
| Routing.DeviceBoundUnchanged | src/server/websockets/websocket-module.ts:12-36 | camera requests and client commands go to the device side unchanged |
| Routing.SilentEvents | src/server/websockets/websocket-module.ts:28-60 | motor-control, battery, distance and client-count events send nothing |
| Routing.ImageRouteIff | src/server/websockets/websocket-module.ts:38-52 | an image goes to the viewers exactly when it has at least 2 payload bytes and declares its payload length, and then unchanged |
| Routing.DeviceFramesRelayedUnchanged | src/server/websockets/websocket-module.ts:16-52 | composed with the device handler: anything relayed from the device goes to the viewers byte-identical |
| Routing.TelemetryEndToEnd | src/server/websockets/control-gateway.ts:49-63 | the device frame [2,4,0,a,b,c,d] reaches the viewers byte-for-byte |
| Routing.CameraChunkEndToEnd | src/server/websockets/websocket-module.ts:43-51 | an id-4 frame passes the device handler exactly when well framed, and is relayed exactly when it also has at least 2 payload bytes |
| Routing.InnerChunkLengthUnchecked | src/server/websockets/websocket-module.ts:38-52 | a chunk whose inner length disagrees with its data is still relayed |
| Routing.ClientCommandEndToEnd | src/server/websockets/websocket-module.ts:33-36 | composed with the viewer handler: binary id-5 or id-6 messages of 3 or more bytes, and only these, reach the device side verbatim |
| Relay.RoutedConnection | src/server/websockets/client-gateway.ts:16-28 | a viewer's arrival causes one broadcast of camera-on to the device side when it is the only viewer, and none otherwise |
| Relay.RoutedDisconnection | src/server/websockets/client-gateway.ts:30-42 | a viewer's departure causes one broadcast of camera-off to the device side when none is left, and none otherwise |
| Relay.Relay.Publish | src/server/websockets/websocket-module.ts:10-60 | each emitted event is handled in order; each broadcast the routing asks for reaches every OPEN connection of the target gateway once |
| Relay.Relay.DeviceMessage | src/server/websockets/control-gateway.ts:31-113 | a device message is relayed exactly when the end-to-end routing relays it, unchanged, to every OPEN viewer |
| Relay.Relay.ClientMessage | src/server/websockets/client-gateway.ts:44-55 | a viewer message is relayed exactly when the routing relays it, unchanged, to every OPEN device connection |
| Relay.Relay.ClientConnect | src/server/websockets/client-gateway.ts:16-28 | the viewer joins; camera-on reaches every OPEN device connection exactly when it is the only viewer |
| Relay.Relay.ClientClose | src/server/websockets/client-gateway.ts:30-42 | the viewer leaves; camera-off reaches every OPEN device connection exactly when no viewer is left |
| Relay.Relay.DeviceConnect | src/server/websockets/control-gateway.ts:16-25 | a device connection joins the device-side set and nothing is sent |
| Relay.Relay.DeviceClose | src/server/websockets/control-gateway.ts:27-29 | a device connection leaves the device-side set and nothing is sent |
| DeviceCooldown.Mark | src/utils/device-utils.js:9-18 | the id is in the set and one removal timer at now + cooldownMs is appended |
| DeviceCooldown.ReleasedDevices.MarkDeviceAsReleased | src/utils/device-utils.js:9-18 | the set and timer list become `Mark` of the old ones |
| DeviceCooldown.ReleasedDevices.IsDeviceRecentlyReleased | src/utils/device-utils.js:25-27 | a read-only membership test of the set |
| DeviceCooldown.ReleasedDevices.AdvanceTo | src/utils/device-utils.js:14-17 | every timer due by now fires and deletes its id; the later timers stay pending in order |
| DeviceCooldown.ReleasedAfterAdvanceIff | src/utils/device-utils.js:14-17 | after the clock reaches now, an id is still marked exactly when it was and none of its timers is due |
| DeviceCooldown.MarkedUntilRemoval | src/utils/device-utils.js:9-27 | after a mark, the id reads as released until one of its timers is due, and never once the new timer's time is reached |
| DeviceCooldown.RemarkAddsOnlyATimer | src/utils/device-utils.js:11-17 | marking a marked id leaves the set unchanged but schedules one more removal |
| DeviceCooldown.EarlierTimerClearsRemark | src/utils/device-utils.js:14-17 | the first mark's timer clears an id that was marked again later, while the second timer is still pending |
| DeviceCooldown.MarkLeavesOthers | src/utils/device-utils.js:11-17 | marking one id changes neither the status nor the timers of any other id |
| DeviceCooldown.DefaultCooldownIsFiveSeconds | src/utils/device-utils.js:9 | without a cooldown argument, the removal fires 5000 ms after the mark |
| DeviceCooldown.AdvanceTwice | src/utils/device-utils.js:14-17 | letting the clock reach t1 and then t2 gives the same state as reaching t2 at once |
| Legacy.OnMessage | server-old/server.js:130-219 | an event is published only for a binary, well-framed message, and only a device event |
| Legacy.Route | server-old/server.js:264-287 | an image goes to all viewers unchanged with no check; every other event is routed as in the current server |
| Legacy.OnImage | server-old/server.js:284-287 | the image is broadcast to the viewers; the size is logged exactly when now ≥ 1000, because the throttle is new on every call |
| Legacy.ClientHandlersAgree | server-old/server.js:222-242 | the old connection handlers publish the same events as the current ones |
| Legacy.DeviceHandlersAgreeExceptEmptyChunk | server-old/server.js:130-219 | the old and current device handlers differ exactly on the binary message [4,0,0] |
| Legacy.DeviceFramesRelayedUnchanged | server-old/server.js:269-287 | anything the old server relays from the device reaches the viewers byte-identical |
| Legacy.CameraChunkRelayDiffers | server-old/server.js:170-179 | the old server relays a well-framed chunk with at least 1 payload byte; the current one needs at least 2 |
| Legacy.OneByteChunkOnlyRelayedByOldServer | server-old/server.js:170-179 | the chunk [4,1,0,9] is relayed by the old server and dropped by the current one |

## Left out

- HTTP static-file serving and its MIME table (server-old/server.js:367-400, src/server/plugins/websocket.ts:52-89): file-system I/O.
- Upgrade routing by URL (`/ws` and `/wsc`) and the `listen` calls: host glue. Which gateway a connection belongs to is given.
- The `ws` library's `handleUpgrade`, `readyState` and `send`: a socket is an object with an open flag, and a send is the socket appearing in a broadcast's recipients.
- `debounce`: it depends on `setTimeout`, and nothing in the core calls it.
- Console logging, `onError` and `onClose` (which only log), and the IP lookup in `onConnection`. The old image handler's log call is kept only as the throttle's yes/no.
- `Date.now()` and the timer queue: the clock is a parameter. Node's clamping of timer delays below 1 ms or above 2^31−1 ms is not modelled; `cooldownMs` is a natural number.
- The `MSG_MOTOR_STATE` and `MSG_MOVE_CMD` tables: constants that no modelled code reads.
- The old server's `make*`/`parse*` helpers and `throttle` (server-old/server.js:12-22, 291-364) and its `BaseWS` and `ClientWS.onMessage`: the same code as the current server's. Each is modelled once, by `Protocol`, `Throttling`, `BaseWebSocket` and `ClientGateway.OnMessage`.
- `Buffer.from` reducing numbers above 255 modulo 256: the builders take byte-range arguments.
- Event-bus listeners that are not in the routing: no handler listens to the client-count event, so it sends nothing.
- Concurrency: Node's single event loop runs every handler to completion, so each operation is one atomic step.
