/**
 * The viewer-side gateway's handlers (`ClientWS`, src/server/websockets/client-gateway.ts).
 * The connection handlers see the size of the `clients` set after the base
 * class has added or removed the connection; the camera is asked on when the
 * first viewer arrives and off when the last one leaves.
 */
module ClientGateway {
  import opened Wrappers
  import opened Protocol
  import opened Bus

  /** Events published when a viewer connects; `size` counts the new connection already. */
  function OnConnection(size: nat): (events: seq<Event>)
    ensures |events| >= 1 && events[0] == ClientCount(size)
    ensures CameraControlRequest(MakeCameraControl(true)) in events <==> size == 1
  {
    [ClientCount(size)] + if size == 1 then [CameraControlRequest(MakeCameraControl(true))] else []
  }

  /** Events published when a viewer disconnects; `size` is the count after its removal. */
  function OnDisconnect(size: nat): (events: seq<Event>)
    ensures |events| >= 1 && events[0] == ClientCount(size)
    ensures CameraControlRequest(MakeCameraControl(false)) in events <==> size == 0
  {
    [ClientCount(size)] + if size == 0 then [CameraControlRequest(MakeCameraControl(false))] else []
  }

  /** Binary messages of at least 3 bytes with id 5 or 6 are forwarded verbatim; nothing else is. */
  function OnMessage(m: Message): (e: Option<Event>)
    ensures e.Some? <==> m.isBinary && |m.data| >= 3 && (m.data[0] == MotorControlId || m.data[0] == MoveControlId)
    ensures e.Some? ==> e.value == ClientCommand(m.data)
  {
    if m.isBinary && |m.data| >= 3 && (m.data[0] == MotorControlId || m.data[0] == MoveControlId) then
      Some(ClientCommand(m.data))
    else
      None
  }

  /** Every frame the two command builders make is forwarded, byte for byte. */
  lemma BuiltCommandsForwarded(m1: byte, m2: byte, cmd: byte)
    ensures OnMessage(Message(MakeMotorControl(m1, m2), true)) == Some(ClientCommand(MakeMotorControl(m1, m2)))
    ensures OnMessage(Message(MakeMoveControl(cmd), true)) == Some(ClientCommand(MakeMoveControl(cmd)))
  {
  }

  /** The payload is not checked: a motor command declaring 0 bytes is forwarded though the codec refuses it. */
  lemma CommandPayloadUnchecked()
    ensures OnMessage(Message([MotorControlId, 0, 0], true)).Some?
    ensures ParseMotorControl(Payload([MotorControlId, 0, 0])) == None
  {
  }

  // Camera requests over a run of connects and disconnects

  datatype Step<T> = Connect(conn: T) | Disconnect(conn: T)

  /** Each connect adds a connection not yet present; each disconnect removes one that is. */
  predicate Admissible<T(==)>(clients: set<T>, steps: seq<Step<T>>)
    decreases |steps|
  {
    steps == [] ||
    match steps[0]
    case Connect(c) => c !in clients && Admissible(clients + {c}, steps[1..])
    case Disconnect(c) => c in clients && Admissible(clients - {c}, steps[1..])
  }

  /** The `clients` set after one step, as the base class's add and delete leave it. */
  function After<T(==)>(clients: set<T>, step: Step<T>): set<T>
  {
    match step
    case Connect(c) => clients + {c}
    case Disconnect(c) => clients - {c}
  }

  /** The events one step publishes. */
  function StepEvents<T(==)>(clients: set<T>, step: Step<T>): seq<Event>
  {
    match step
    case Connect(_) => OnConnection(|After(clients, step)|)
    case Disconnect(_) => OnDisconnect(|After(clients, step)|)
  }

  /** The events a run of steps publishes, in order. */
  function RunEvents<T(==)>(clients: set<T>, steps: seq<Step<T>>): seq<Event>
    decreases |steps|
  {
    if steps == [] then [] else StepEvents(clients, steps[0]) + RunEvents(After(clients, steps[0]), steps[1..])
  }

  /** The camera requests among the events: true for on, false for off. */
  function CameraRequests(events: seq<Event>): seq<bool>
  {
    if events == [] then []
    else
      var rest := CameraRequests(events[1..]);
      match events[0]
      case CameraControlRequest(buf) => [buf == MakeCameraControl(true)] + rest
      case _ => rest
  }

  /** The requests switch the camera each time, starting from `camera`. */
  predicate Toggles(camera: bool, requests: seq<bool>)
    decreases |requests|
  {
    requests == [] || (requests[0] == !camera && Toggles(!camera, requests[1..]))
  }

  lemma {:induction false} CameraRequestsAppend(a: seq<Event>, b: seq<Event>)
    ensures CameraRequests(a + b) == CameraRequests(a) + CameraRequests(b)
  {
    if a == [] {
      assert a + b == b;
    } else {
      assert (a + b)[0] == a[0] && (a + b)[1..] == a[1..] + b;
      CameraRequestsAppend(a[1..], b);
    }
  }

  /** The connections left after a run. */
  function FinalClients<T(==)>(clients: set<T>, steps: seq<Step<T>>): set<T>
    decreases |steps|
  {
    if steps == [] then clients else FinalClients(After(clients, steps[0]), steps[1..])
  }

  /** The camera state after a sequence of requests, starting from `camera`. */
  function CameraAfter(camera: bool, requests: seq<bool>): bool
    decreases |requests|
  {
    if requests == [] then camera else CameraAfter(requests[0], requests[1..])
  }

  /** The camera requests one step publishes. */
  lemma StepRequests<T>(clients: set<T>, step: Step<T>)
    requires match step case Connect(c) => c !in clients case Disconnect(c) => c in clients
    ensures CameraRequests(StepEvents(clients, step))
         == if (|clients| > 0) == (|After(clients, step)| > 0) then [] else [|After(clients, step)| > 0]
  {
    assert MakeCameraControl(false) != MakeCameraControl(true);
    var n := |After(clients, step)|;
    var events := StepEvents(clients, step);
    match step
    case Connect(c) =>
      assert n == |clients| + 1;
      if n == 1 {
        assert events[1..] == [CameraControlRequest(MakeCameraControl(true))] && events[1..][1..] == [];
        assert CameraRequests(events[1..]) == [true];
      } else {
        assert events[1..] == [];
      }
    case Disconnect(c) =>
      assert n == |clients| - 1;
      if n == 0 {
        assert events[1..] == [CameraControlRequest(MakeCameraControl(false))] && events[1..][1..] == [];
        assert CameraRequests(events[1..]) == [false];
      } else {
        assert events[1..] == [];
      }
  }

  /**
   * Over any admissible run, each camera request switches the camera from the
   * state the viewer count implies, and at the end the camera is on exactly
   * when viewers remain.
   */
  lemma {:induction false} CameraRequestsToggle<T>(clients: set<T>, steps: seq<Step<T>>)
    requires Admissible(clients, steps)
    ensures Toggles(|clients| > 0, CameraRequests(RunEvents(clients, steps)))
    ensures CameraAfter(|clients| > 0, CameraRequests(RunEvents(clients, steps))) == (|FinalClients(clients, steps)| > 0)
    decreases |steps|
  {
    if steps != [] {
      var next := After(clients, steps[0]);
      CameraRequestsToggle(next, steps[1..]);
      CameraRequestsAppend(StepEvents(clients, steps[0]), RunEvents(next, steps[1..]));
      StepRequests(clients, steps[0]);
      var here := CameraRequests(StepEvents(clients, steps[0]));
      var rest := CameraRequests(RunEvents(next, steps[1..]));
      assert CameraRequests(RunEvents(clients, steps)) == here + rest;
      if here != [] {
        assert (here + rest)[1..] == rest;
      }
    }
  }

  lemma {:induction false} TogglesAt(camera: bool, requests: seq<bool>, i: nat)
    requires Toggles(camera, requests) && i < |requests|
    ensures requests[i] == (if i % 2 == 0 then !camera else camera)
    decreases i
  {
    if i > 0 {
      TogglesAt(!camera, requests[1..], i - 1);
    }
  }

  /**
   * From no viewers, camera-on and camera-off requests strictly alternate,
   * starting with on.
   */
  lemma CameraOnOffAlternate<T>(steps: seq<Step<T>>, i: nat)
    requires Admissible({}, steps)
    requires i < |CameraRequests(RunEvents({}, steps))|
    ensures CameraRequests(RunEvents({}, steps))[i] == (i % 2 == 0)
  {
    CameraRequestsToggle({}, steps);
    TogglesAt(false, CameraRequests(RunEvents({}, steps)), i);
  }
}
