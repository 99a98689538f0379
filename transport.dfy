/**
  The server-side transport: `ConnectionAdapter` re-exposes one accepted
  operating-system connection as the protocol layer's connection (peer id,
  data and broken delegates, sending, breaking), and `AcceptConnection` is
  what the listening endpoint runs for each connection it accepts.

  A delegate is an object that is either installed (non-null) or absent
  (null); each records in a ghost log every call it receives, which is all
  the model needs to know of the protocol layer's callbacks.
 */
module HttpNetworkTransport {
  import opened Wrappers
  import opened PeerId
  import opened SystemUtils

  /** The protocol layer's callback for data received from the peer. */
  class DataReceivedDelegate {
    ghost var received: seq<Bytes>

    constructor ()
      ensures received == []
    {
      received := [];
    }

    method Invoke(message: Bytes)
      modifies this
      ensures received == old(received) + [message]
    {
      received := received + [message];
    }
  }

  /** The protocol layer's callback for a connection that was broken. */
  class BrokenDelegate {
    ghost var notifications: seq<bool>

    constructor ()
      ensures notifications == []
    {
      notifications := [];
    }

    method Invoke(graceful: bool)
      modifies this
      ensures notifications == old(notifications) + [graceful]
    {
      notifications := notifications + [graceful];
    }
  }

  class ConnectionAdapter {
    /** The operating-system connection; set right after construction. */
    var adapter: NetworkConnection?
    var dataReceivedDelegate: DataReceivedDelegate?
    var brokenDelegate: BrokenDelegate?

    constructor ()
      ensures adapter == null && dataReceivedDelegate == null && brokenDelegate == null
    {
      adapter := null;
      dataReceivedDelegate := null;
      brokenDelegate := null;
    }

    /** Starts the connection's processing with this adapter's two handlers
        (`OnMessage` and `OnBroken`) and reports whether it started. */
    method WireUpAdapter() returns (ok: bool)
      requires adapter != null
      modifies adapter
      ensures ok == adapter.canProcess && adapter.processing == ok
      ensures adapter.sent == old(adapter.sent) && adapter.closeRequests == old(adapter.closeRequests)
    {
      ok := adapter.Process();
    }

    /** Handler for an inbound message: passed on verbatim to the data
        delegate if one is installed, dropped otherwise. Only the delegate
        can change, so with none installed nothing changes. */
    method OnMessage(message: Bytes)
      requires adapter != null && adapter.processing
      modifies dataReceivedDelegate
      ensures dataReceivedDelegate != null ==>
        dataReceivedDelegate.received == old(dataReceivedDelegate.received) + [message]
    {
      if dataReceivedDelegate != null {
        dataReceivedDelegate.Invoke(message);
      }
    }

    /** Handler for the end of the connection: the `graceful` flag is passed
        on unchanged to the broken delegate if one is installed, and the
        event is dropped otherwise. */
    method OnBroken(graceful: bool)
      requires adapter != null && adapter.processing
      modifies brokenDelegate
      ensures brokenDelegate != null ==>
        brokenDelegate.notifications == old(brokenDelegate.notifications) + [graceful]
    {
      if brokenDelegate != null {
        brokenDelegate.Invoke(graceful);
      }
    }

    /** The peer's address and port as `A.B.C.D:port`; parsing it gives back
        the four octets of the address and the port. */
    method GetPeerId() returns (id: string)
      requires adapter != null
      ensures id == FormatPeerId(adapter.peerAddress, adapter.peerPort)
      ensures ParsePeerId(id) == Some(Fields(adapter.peerAddress, adapter.peerPort))
      ensures 9 <= |id| <= 21
    {
      var address := adapter.GetPeerAddress();
      var port := adapter.GetPeerPort();
      id := Render(PeerFields(Octet(address, 24) as nat, Octet(address, 16) as nat,
                              Octet(address, 8) as nat, Octet(address, 0) as nat, port));
      FormatPeerIdRoundTrip(address, port);
    }

    method SetDataReceivedDelegate(newDataReceivedDelegate: DataReceivedDelegate?)
      modifies this`dataReceivedDelegate
      ensures dataReceivedDelegate == newDataReceivedDelegate
      ensures brokenDelegate == old(brokenDelegate) && adapter == old(adapter)
    {
      dataReceivedDelegate := newDataReceivedDelegate;
    }

    method SetConnectionBrokenDelegate(newBrokenDelegate: BrokenDelegate?)
      modifies this`brokenDelegate
      ensures brokenDelegate == newBrokenDelegate
      ensures dataReceivedDelegate == old(dataReceivedDelegate) && adapter == old(adapter)
    {
      brokenDelegate := newBrokenDelegate;
    }

    /** Hands `data` unchanged to the connection for sending. */
    method SendData(data: Bytes)
      requires adapter != null
      modifies adapter
      ensures adapter.sent == old(adapter.sent) + [data]
      ensures adapter.closeRequests == old(adapter.closeRequests)
      ensures adapter.processing == old(adapter.processing)
    {
      adapter.SendMessage(data);
    }

    /** Passes the close request, with its `clean` flag, to the connection. */
    method Break(clean: bool)
      requires adapter != null
      modifies adapter
      ensures adapter.closeRequests == old(adapter.closeRequests) + [clean]
      ensures adapter.sent == old(adapter.sent)
      ensures adapter.processing == old(adapter.processing)
    {
      adapter.Close(clean);
    }
  }

  /** The caller's callback for each accepted connection. It records the
      adapter it is handed and, like the callbacks the library's users
      install, may install a data delegate on that adapter. */
  class NewConnectionDelegate {
    /** The data delegate this callback installs on every adapter it is
        handed, or null if it installs none. */
    const dataReceivedDelegate: DataReceivedDelegate?
    ghost var connections: seq<ConnectionAdapter>

    constructor (dataReceivedDelegate: DataReceivedDelegate?)
      ensures this.dataReceivedDelegate == dataReceivedDelegate && connections == []
    {
      this.dataReceivedDelegate := dataReceivedDelegate;
      connections := [];
    }

    method Invoke(connection: ConnectionAdapter)
      modifies this, connection`dataReceivedDelegate
      ensures connections == old(connections) + [connection]
      ensures connection.dataReceivedDelegate ==
        (if dataReceivedDelegate != null then dataReceivedDelegate else old(connection.dataReceivedDelegate))
      ensures connection.brokenDelegate == old(connection.brokenDelegate)
      ensures connection.adapter == old(connection.adapter)
    {
      connections := connections + [connection];
      if dataReceivedDelegate != null {
        connection.SetDataReceivedDelegate(dataReceivedDelegate);
      }
    }
  }

  /** The first half of accepting a connection: wrap it in a fresh adapter
      with no delegates and start its processing, reporting whether that
      started. */
  method Activate(newConnection: NetworkConnection) returns (adapter: ConnectionAdapter, wired: bool)
    modifies newConnection
    ensures fresh(adapter) && adapter.adapter == newConnection
    ensures adapter.dataReceivedDelegate == null && adapter.brokenDelegate == null
    ensures wired == newConnection.canProcess && newConnection.processing == wired
    ensures newConnection.sent == old(newConnection.sent)
    ensures newConnection.closeRequests == old(newConnection.closeRequests)
  {
    adapter := new ConnectionAdapter();
    adapter.adapter := newConnection;
    wired := adapter.WireUpAdapter();
  }

  /** What the listening endpoint does with a newly accepted connection:
      wrap it in a fresh adapter, start its processing, and hand the adapter
      to the caller's callback only if processing started. */
  method AcceptConnection(newConnection: NetworkConnection, newConnectionDelegate: NewConnectionDelegate)
    returns (adapter: ConnectionAdapter)
    modifies newConnection, newConnectionDelegate
    ensures fresh(adapter) && adapter.adapter == newConnection
    ensures adapter.dataReceivedDelegate ==
      (if newConnection.canProcess then newConnectionDelegate.dataReceivedDelegate else null)
    ensures adapter.brokenDelegate == null
    ensures newConnection.processing == newConnection.canProcess
    ensures newConnectionDelegate.connections ==
      old(newConnectionDelegate.connections) + (if newConnection.canProcess then [adapter] else [])
    ensures newConnection.sent == old(newConnection.sent)
    ensures newConnection.closeRequests == old(newConnection.closeRequests)
  {
    var wired;
    adapter, wired := Activate(newConnection);
    if !wired {
      return;
    }
    newConnectionDelegate.Invoke(adapter);
  }

  /** A peer's message reaches the data delegate that the caller's callback
      installs on the adapter it is handed, byte for byte, when the message
      arrives after the callback has run. */
  method ReceiveAfterAccept(connection: NetworkConnection, onNewConnection: NewConnectionDelegate,
                            sink: DataReceivedDelegate, message: Bytes)
    returns (adapter: ConnectionAdapter)
    requires connection.canProcess && onNewConnection.dataReceivedDelegate == sink
    modifies connection, onNewConnection, sink
    ensures onNewConnection.connections == old(onNewConnection.connections) + [adapter]
    ensures adapter.dataReceivedDelegate == sink
    ensures sink.received == old(sink.received) + [message]
  {
    adapter := AcceptConnection(connection, onNewConnection);
    adapter.OnMessage(message);
  }

  /** A message that arrives after processing started but before the
      caller's callback has installed its data delegate is lost: the
      delegate installed afterwards never sees it. */
  method ReceiveBeforeDelegate(connection: NetworkConnection, onNewConnection: NewConnectionDelegate,
                               sink: DataReceivedDelegate, message: Bytes)
    returns (adapter: ConnectionAdapter)
    requires connection.canProcess && onNewConnection.dataReceivedDelegate == sink
    modifies connection, onNewConnection, sink
    ensures onNewConnection.connections == old(onNewConnection.connections) + [adapter]
    ensures adapter.dataReceivedDelegate == sink
    ensures sink.received == old(sink.received)
  {
    var wired;
    adapter, wired := Activate(connection);
    adapter.OnMessage(message);
    onNewConnection.Invoke(adapter);
  }
}
