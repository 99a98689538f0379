/**
  Stand-in for the operating-system connection object the adapter wraps
  (`SystemUtils::NetworkConnection`). Its socket work is outside this model:
  what it does is recorded instead. The peer's address and port are fixed
  when the connection is accepted; whether `Process` manages to start event
  delivery is decided by the operating system and given as `canProcess`;
  what is sent and every close request are appended to ghost logs.
 */
module SystemUtils {
  import opened PeerId

  type Bytes = seq<bv8>

  class NetworkConnection {
    const peerAddress: bv32
    const peerPort: Port
    /** The outcome `Process` will report. */
    const canProcess: bool
    /** Whether inbound events are being delivered to registered handlers. */
    var processing: bool
    /** Every message handed to `SendMessage`, in order. */
    ghost var sent: seq<Bytes>
    /** The `graceful` flag of every `Close` request, in order. */
    ghost var closeRequests: seq<bool>

    constructor (peerAddress: bv32, peerPort: Port, canProcess: bool)
      ensures this.peerAddress == peerAddress && this.peerPort == peerPort
      ensures this.canProcess == canProcess
      ensures !processing && sent == [] && closeRequests == []
    {
      this.peerAddress := peerAddress;
      this.peerPort := peerPort;
      this.canProcess := canProcess;
      processing := false;
      sent := [];
      closeRequests := [];
    }

    function GetPeerAddress(): bv32 {
      peerAddress
    }

    function GetPeerPort(): Port {
      peerPort
    }

    /** Starts delivering inbound messages and the close notification to the
        handlers just registered; reports whether that could be started. */
    method Process() returns (ok: bool)
      modifies this
      ensures ok == canProcess && processing == ok
      ensures sent == old(sent) && closeRequests == old(closeRequests)
    {
      ok := canProcess;
      processing := ok;
    }

    /** Queues `message` for sending to the peer. */
    method SendMessage(message: Bytes)
      modifies this
      ensures sent == old(sent) + [message]
      ensures closeRequests == old(closeRequests) && processing == old(processing)
    {
      sent := sent + [message];
    }

    /** Requests that the connection be closed, gracefully or not. */
    method Close(graceful: bool)
      modifies this
      ensures closeRequests == old(closeRequests) + [graceful]
      ensures sent == old(sent) && processing == old(processing)
    {
      closeRequests := closeRequests + [graceful];
    }
  }
}
