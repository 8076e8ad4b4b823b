/**
 * The running relay: one device-side and one viewer-side gateway joined by
 * the event bus, whose handlers (the routing) broadcast through the gateway
 * the routing targets (src/server/websockets/websocket-module.ts with the two
 * gateway singletons).
 */
module Relay {
  import opened Wrappers
  import opened Protocol
  import opened Bus
  import opened Routing
  import opened BaseWebSocket
  import ClientGateway

  /** The bytes one broadcast sent, and the sockets it sent them to. */
  datatype Delivery = Delivery(recipients: seq<Socket>, data: seq<byte>)

  /** The broadcasts a run of published events causes, in order. */
  function Routed(events: seq<Event>): seq<Broadcast>
  {
    if events == [] then []
    else
      match Route(events[0])
      case None => Routed(events[1..])
      case Some(b) => [b] + Routed(events[1..])
  }

  lemma {:induction false} RoutedAppend(a: seq<Event>, b: seq<Event>)
    ensures Routed(a + b) == Routed(a) + Routed(b)
  {
    if a == [] {
      assert a + b == b;
    } else {
      assert (a + b)[0] == a[0] && (a + b)[1..] == a[1..] + b;
      RoutedAppend(a[1..], b);
    }
  }

  /** A viewer's arrival sends camera-on to the device side when it is the only viewer, and nothing otherwise. */
  lemma RoutedConnection(size: nat)
    ensures Routed(ClientGateway.OnConnection(size))
         == if size == 1 then [Broadcast(Devices, MakeCameraControl(true))] else []
  {
    var events := ClientGateway.OnConnection(size);
    assert events[1..] == (if size == 1 then [CameraControlRequest(MakeCameraControl(true))] else []);
    if size == 1 {
      assert events[1..][1..] == [];
      assert Routed(events[1..]) == [Broadcast(Devices, MakeCameraControl(true))];
    }
  }

  /** A viewer's departure sends camera-off to the device side when no viewer is left, and nothing otherwise. */
  lemma RoutedDisconnection(size: nat)
    ensures Routed(ClientGateway.OnDisconnect(size))
         == if size == 0 then [Broadcast(Devices, MakeCameraControl(false))] else []
  {
    var events := ClientGateway.OnDisconnect(size);
    assert events[1..] == (if size == 0 then [CameraControlRequest(MakeCameraControl(false))] else []);
    if size == 0 {
      assert events[1..][1..] == [];
      assert Routed(events[1..]) == [Broadcast(Devices, MakeCameraControl(false))];
    }
  }

  class Relay {
    const clientWS: Gateway
    const controlWS: Gateway

    ghost predicate Valid()
    {
      clientWS.role == ClientRole && controlWS.role == ControlRole
    }

    constructor ()
      ensures Valid() && fresh(clientWS) && fresh(controlWS)
      ensures clientWS.clients == {} && controlWS.clients == {}
    {
      clientWS := new Gateway(ClientRole);
      controlWS := new Gateway(ControlRole);
    }

    /** The gateway whose connections a broadcast target names. */
    function GatewayFor(target: Target): Gateway
    {
      match target
      case Devices => controlWS
      case Clients => clientWS
    }

    /** `d` is the broadcast `b` carried out: its bytes to every OPEN connection of the target gateway. */
    ghost predicate Carries(d: Delivery, b: Broadcast)
      reads GatewayFor(b.target), GatewayFor(b.target).clients
    {
      d.data == b.data && SentToOpen(d.recipients, GatewayFor(b.target).clients)
    }

    /** Emitting events on the bus, in order: each handler runs and broadcasts, or stays silent. */
    method Publish(events: seq<Event>) returns (out: seq<Delivery>)
      ensures |out| == |Routed(events)|
      ensures forall k :: 0 <= k < |out| ==> Carries(out[k], Routed(events)[k])
    {
      out := [];
      var i := 0;
      while i < |events|
        invariant 0 <= i <= |events|
        invariant out == [] || i > 0
        invariant |out| == |Routed(events[..i])|
        invariant forall k :: 0 <= k < |out| ==> Carries(out[k], Routed(events[..i])[k])
      {
        RoutedAppend(events[..i], [events[i]]);
        assert events[..i + 1] == events[..i] + [events[i]];
        var b := Route(events[i]);
        if b.Some? {
          var sent := GatewayFor(b.value.target).Broadcast();
          out := out + [Delivery(sent, b.value.data)];
        }
        i := i + 1;
      }
      assert events[..i] == events;
    }

    /** A message arrives on a device connection. */
    method DeviceMessage(m: Message) returns (out: Option<Delivery>)
      requires Valid()
      ensures out.Some? <==> RelayDeviceMessage(m).Some?
      ensures out.Some? ==> out.value.data == m.data && SentToOpen(out.value.recipients, clientWS.clients)
    {
      DeviceFramesRelayedUnchanged(m);
      var e := controlWS.OnMessage(m);
      out := None;
      if e.Some? {
        var sends := Publish([e.value]);
        if sends != [] {
          out := Some(sends[0]);
        }
      }
    }

    /** A message arrives on a viewer connection. */
    method ClientMessage(m: Message) returns (out: Option<Delivery>)
      requires Valid()
      ensures out.Some? <==> RelayClientMessage(m).Some?
      ensures out.Some? ==> out.value.data == m.data && SentToOpen(out.value.recipients, controlWS.clients)
    {
      var e := clientWS.OnMessage(m);
      out := None;
      if e.Some? {
        var sends := Publish([e.value]);
        if sends != [] {
          out := Some(sends[0]);
        }
      }
    }

    /** A viewer connects: camera-on reaches every open device connection exactly when it is the only viewer. */
    method ClientConnect(ws: Socket) returns (out: seq<Delivery>)
      requires Valid()
      modifies clientWS
      ensures clientWS.clients == old(clientWS.clients) + {ws}
      ensures |out| == if |clientWS.clients| == 1 then 1 else 0
      ensures |out| == 1 ==> out[0].data == MakeCameraControl(true) && SentToOpen(out[0].recipients, controlWS.clients)
    {
      var events := clientWS.Connect(ws);
      RoutedConnection(|clientWS.clients|);
      out := Publish(events);
    }

    /** A viewer disconnects: camera-off reaches every open device connection exactly when no viewer is left. */
    method ClientClose(ws: Socket) returns (out: seq<Delivery>)
      requires Valid()
      modifies clientWS
      ensures clientWS.clients == old(clientWS.clients) - {ws}
      ensures |out| == if |clientWS.clients| == 0 then 1 else 0
      ensures |out| == 1 ==> out[0].data == MakeCameraControl(false) && SentToOpen(out[0].recipients, controlWS.clients)
    {
      var events := clientWS.Close(ws);
      RoutedDisconnection(|clientWS.clients|);
      out := Publish(events);
    }

    /** A device connects or disconnects: only the bookkeeping changes; nothing is sent. */
    method DeviceConnect(ws: Socket)
      requires Valid()
      modifies controlWS
      ensures controlWS.clients == old(controlWS.clients) + {ws}
    {
      var events := controlWS.Connect(ws);
      assert events == [];
    }

    method DeviceClose(ws: Socket)
      requires Valid()
      modifies controlWS
      ensures controlWS.clients == old(controlWS.clients) - {ws}
    {
      var events := controlWS.Close(ws);
      assert events == [];
    }
  }
}
