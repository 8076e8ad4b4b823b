/**
 * The connection bookkeeping shared by both gateways (`BaseWS`,
 * src/server/websockets/base-websocket.ts). A gateway keeps the set of
 * accepted, not yet closed connections; each lifecycle callback first updates
 * that set and then runs the role's handler. The two roles are the
 * device-side `ControlWS` and the viewer-side `ClientWS`, which override the
 * handlers.
 */
module BaseWebSocket {
  import opened Wrappers
  import opened Protocol
  import opened Bus
  import ControlGateway
  import ClientGateway

  /** A socket, seen only through whether its ready state is OPEN; the transport changes that flag. */
  class Socket {
    var open: bool

    constructor (open: bool)
      ensures this.open == open
    {
      this.open := open;
    }
  }

  datatype Role = ControlRole | ClientRole

  /** `recipients` lists each OPEN member of `clients` exactly once, and nothing else. */
  ghost predicate SentToOpen(recipients: seq<Socket>, clients: set<Socket>)
    reads clients
  {
    && (forall s :: s in recipients ==> s in clients && s.open)
    && (forall s :: s in clients && s.open ==> s in recipients)
    && (forall i, j :: 0 <= i < j < |recipients| ==> recipients[i] != recipients[j])
  }

  /** The events a role's `onConnection` publishes, given the set size after the add. */
  function ConnectionEvents(role: Role, size: nat): seq<Event>
  {
    match role
    case ControlRole => []
    case ClientRole => ClientGateway.OnConnection(size)
  }

  /** The events a role's `onDisconnect` publishes, given the set size after the removal. */
  function DisconnectEvents(role: Role, size: nat): seq<Event>
  {
    match role
    case ControlRole => []
    case ClientRole => ClientGateway.OnDisconnect(size)
  }

  class Gateway {
    const role: Role
    var clients: set<Socket>

    constructor (role: Role)
      ensures this.role == role && clients == {}
    {
      this.role := role;
      clients := {};
    }

    /** A connection is accepted: it joins `clients` before the role's handler sees the size. */
    method Connect(ws: Socket) returns (events: seq<Event>)
      modifies this
      ensures clients == old(clients) + {ws}
      ensures events == ConnectionEvents(role, |clients|)
    {
      clients := clients + {ws};
      events := ConnectionEvents(role, |clients|);
    }

    /** A connection closes: it leaves `clients` before the role's handler sees the size. */
    method Close(ws: Socket) returns (events: seq<Event>)
      modifies this
      ensures clients == old(clients) - {ws}
      ensures events == DisconnectEvents(role, |clients|)
    {
      clients := clients - {ws};
      events := DisconnectEvents(role, |clients|);
    }

    /** The role's message handler; it reads no connection state. */
    function OnMessage(m: Message): Option<Event>
    {
      match role
      case ControlRole => ControlGateway.OnMessage(m)
      case ClientRole => ClientGateway.OnMessage(m)
    }

    /**
     * The sockets one `broadcast(data)` sends `data` to, in sending order:
     * each member of `clients` whose state is OPEN, once, and nobody else.
     */
    method Broadcast() returns (sent: seq<Socket>)
      ensures SentToOpen(sent, clients)
    {
      sent := [];
      var rest := clients;
      while rest != {}
        invariant rest <= clients
        invariant forall s :: s in sent <==> s in clients - rest && s.open
        invariant forall i, j :: 0 <= i < j < |sent| ==> sent[i] != sent[j]
        decreases rest
      {
        var c :| c in rest;
        if c.open {
          sent := sent + [c];
        }
        rest := rest - {c};
      }
    }
  }
}
