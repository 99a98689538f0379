# HttpNetworkTransport server side, modelled in Dafny

This project models the server-side network transport of the HttpNetworkTransport
library (`src/HttpServerNetworkTransport.cpp`), which sits between an HTTP server
and the operating system's sockets. Two parts of it are modelled:

- **Peer-id formatting.** `ConnectionAdapter::GetPeerId` turns the peer's 32-bit
  IPv4 address and 16-bit port into the text `A.B.C.D:port`. It takes each octet
  by shifting and masking, narrows it to `uint8_t`, and writes every number in
  plain decimal. The model does this with pure functions. `PeerId.FormatPeerId`
  builds the text. `Decimal.Dec` stands in for the `printf`-style decimal
  conversion. Its inverse `Decimal.DecValue` and the parser `PeerId.ParsePeerId`
  serve as partners for the round-trip lemmas.
- **The connection adapter and the accept path.** `ConnectionAdapter` wraps one
  accepted operating-system connection. It holds two replaceable delegates, one
  for data received and one for a broken connection. `WireUpAdapter` starts the
  connection's processing with two handlers. The message handler passes each
  inbound message to the data delegate if one is installed and drops it
  otherwise. The broken handler treats the `graceful` flag the same way with the
  broken delegate. `SendData` and `Break` pass their arguments down to the
  connection unchanged. For each accepted connection, the endpoint's accept
  callback wraps it in a fresh adapter and activates it. The caller's
  new-connection delegate is called only if activation succeeded. The model
  uses classes and methods with `modifies` frames:
  - `SystemUtils.NetworkConnection` stands in for the operating-system
    connection. Its peer address and port are fixed. The outcome of `Process`
    is an input. Sent messages and close requests are appended to ghost logs.
  - Each delegate is a nullable object (null means "not set"). It keeps a ghost
    log of the calls it receives.
  - The caller's new-connection delegate records each adapter it is handed.
    It may also install a fixed data delegate on that adapter, as the tests'
    callbacks do (test/src/HttpServerNetworkTransportTests.cpp:110, 184, 266).

Module layout: `Wrappers` (Option), `Decimal` (decimal text), `PeerId` (the
peer-id text and its parser), `SystemUtils` (the connection stand-in) and
`HttpNetworkTransport` (the adapter, the delegates and the accept path).

The test at test/src/HttpServerNetworkTransportTests.cpp:242-321 waits 100 ms
before it installs the data delegate, and it still expects every byte. The code
starts processing at src/HttpServerNetworkTransport.cpp:139, before the caller
can install a delegate at line 142. The handler at lines 61-65 drops a message
when no delegate is set. The model follows the code. `ReceiveBeforeDelegate`
shows that a message arriving in that window is dropped. It runs the first half
of the accept path (`Activate`), then the message, then the caller's callback,
which installs its data delegate too late.

## Model

| member | source | states |
|---|---|---|
| `Decimal.Dec` | src/HttpServerNetworkTransport.cpp:77-83 | each number is written as a canonical decimal string: non-empty, digits only, no leading zero except for 0 itself |
| `Decimal.DecValueOfDec` | src/HttpServerNetworkTransport.cpp:77-83 | reading the decimal text back gives the number: `DecValue(Dec(n)) == n` |
| `Decimal.DecOfDecValue` | src/HttpServerNetworkTransport.cpp:77-83 | every canonical digit string is `Dec` of its value, so `Dec(n)` is the only minimal spelling of `n` |
| `Decimal.DecLength` | src/HttpServerNetworkTransport.cpp:77-83 | a number below 10^k takes at most k digits |
| `PeerId.Octet` | src/HttpServerNetworkTransport.cpp:79-82 | narrowing `(addr >> shift) & 0xFF` to 8 bits loses nothing |
| `PeerId.Fields` | src/HttpServerNetworkTransport.cpp:79-83 | the four octet fields of a peer id lie in 0..255, and the last field is the port |
| `PeerId.Render` | src/HttpServerNetworkTransport.cpp:77-84 | the `"%u.%u.%u.%u:%u"` text of the four octets and the port: only digits, '.' and ':', ending in the port's digits after a colon |
| `PeerId.FormatPeerId` | src/HttpServerNetworkTransport.cpp:77-84 | the peer id of an address and port is the `"%u.%u.%u.%u:%u"` text of its four octets and port, and is 9 (`0.0.0.0:0`) to 21 (`255.255.255.255:65535`) characters long |
| `PeerId.OctetsRecombine` | src/HttpServerNetworkTransport.cpp:79-82 | the octets for shifts 24, 16, 8 and 0 reassemble to the address, both as shifts OR'ed together and as the sum o1·2^24 + o2·2^16 + o3·2^8 + o4 |
| `PeerId.ParseRender` | src/HttpServerNetworkTransport.cpp:77-78 | parsing `a.b.c.d:p` on '.', '.', '.', ':' gives back the five numbers, whatever they are |
| `PeerId.RenderParse` | src/HttpServerNetworkTransport.cpp:77-78 | any text that parses as a peer id is exactly the rendering of the fields it parses to |
| `PeerId.FormatPeerIdRoundTrip` | src/HttpServerNetworkTransport.cpp:77-84 | parsing a peer id gives back the four octets of the address and the port |
| `PeerId.FormatPeerIdInjective` | src/HttpServerNetworkTransport.cpp:76-85 | two peers with the same id have the same address and the same port |
| `PeerId.LoopbackPeerId` | test/src/HttpServerNetworkTransportTests.cpp:139-145 | the peer id of 0x7F000001 with port P is exactly `"127.0.0.1:"` followed by P in decimal, as the tests at lines 139-145 and 301-307 expect |
| `SystemUtils.NetworkConnection.constructor` | src/HttpServerNetworkTransport.cpp:136 | an accepted connection has a fixed peer address and port, has not started processing, and has sent and closed nothing |
| `SystemUtils.NetworkConnection.Process` | src/HttpServerNetworkTransport.cpp:60-71 | processing starts exactly when the connection can process, and the result says whether it started |
| `SystemUtils.NetworkConnection.SendMessage` | src/HttpServerNetworkTransport.cpp:96 | the message is appended to the send log, and nothing else changes |
| `SystemUtils.NetworkConnection.Close` | src/HttpServerNetworkTransport.cpp:102 | the graceful flag is appended to the close log, and nothing else changes |
| `HttpNetworkTransport.DataReceivedDelegate.Invoke` | src/HttpServerNetworkTransport.cpp:63 | the delegate receives exactly the message passed to it |
| `HttpNetworkTransport.BrokenDelegate.Invoke` | src/HttpServerNetworkTransport.cpp:68 | the delegate receives exactly the flag passed to it |
| `HttpNetworkTransport.NewConnectionDelegate.constructor` | test/src/HttpServerNetworkTransportTests.cpp:105-113 | a new-connection callback has recorded no adapter yet and carries the data delegate it will install, if any |
| `HttpNetworkTransport.NewConnectionDelegate.Invoke` | src/HttpServerNetworkTransport.cpp:142 | the caller's delegate receives exactly the adapter passed to it. If it carries a data delegate, it installs that one on the adapter. The adapter's broken delegate and connection stay the same |
| `HttpNetworkTransport.ConnectionAdapter.constructor` | src/HttpServerNetworkTransport.cpp:137 | a new adapter has no connection and neither delegate set |
| `HttpNetworkTransport.ConnectionAdapter.WireUpAdapter` | src/HttpServerNetworkTransport.cpp:59-72 | activation succeeds exactly when the connection's `Process` succeeds, and nothing is sent or closed |
| `HttpNetworkTransport.ConnectionAdapter.OnMessage` | src/HttpServerNetworkTransport.cpp:61-65 | an inbound message goes verbatim to the data delegate when one is set; otherwise the method modifies nothing |
| `HttpNetworkTransport.ConnectionAdapter.OnBroken` | src/HttpServerNetworkTransport.cpp:66-70 | the graceful flag goes unchanged to the broken delegate when one is set; otherwise the method modifies nothing |
| `HttpNetworkTransport.ConnectionAdapter.GetPeerId` | src/HttpServerNetworkTransport.cpp:76-85 | the id is the peer-id text of the connection's address and port; it parses back to the four octets and the port and is 9 to 21 characters long |
| `HttpNetworkTransport.ConnectionAdapter.SetDataReceivedDelegate` | src/HttpServerNetworkTransport.cpp:87-89 | replaces only the data delegate; the broken delegate and the connection stay the same |
| `HttpNetworkTransport.ConnectionAdapter.SetConnectionBrokenDelegate` | src/HttpServerNetworkTransport.cpp:91-93 | replaces only the broken delegate; the data delegate and the connection stay the same |
| `HttpNetworkTransport.ConnectionAdapter.SendData` | src/HttpServerNetworkTransport.cpp:95-97 | exactly the given bytes are appended to the connection's send log; its close log and processing state are unchanged |
| `HttpNetworkTransport.ConnectionAdapter.Break` | src/HttpServerNetworkTransport.cpp:99-103 | exactly the given `clean` flag is appended to the connection's close log; its send log and processing state are unchanged |
| `HttpNetworkTransport.Activate` | src/HttpServerNetworkTransport.cpp:137-141 | a fresh adapter wraps the accepted connection with no delegates set. Processing is started, and the result says whether it started. Nothing is sent or closed |
| `HttpNetworkTransport.AcceptConnection` | src/HttpServerNetworkTransport.cpp:136-143 | a fresh adapter wraps the accepted connection and processing is started. The new-connection delegate is called exactly once, with that adapter, if and only if activation succeeded; otherwise its log is unchanged. The adapter ends up with the data delegate the callback installs, or none if activation failed, and with no broken delegate. Nothing is sent or closed |
| `HttpNetworkTransport.ReceiveAfterAccept` | test/src/HttpServerNetworkTransportTests.cpp:87-165 | when the caller's callback installs a data delegate on the adapter it is handed, a later inbound message reaches that delegate byte for byte |
| `HttpNetworkTransport.ReceiveBeforeDelegate` | src/HttpServerNetworkTransport.cpp:61-65 | a message that arrives after activation but before the caller's callback installs its data delegate never reaches that delegate |

## Left out

- `HttpServerNetworkTransport::BindNetwork`, `GetBoundPort` and `ReleaseNetwork` (lines 128-167) only forward to the listening endpoint library, which is not part of this model. Only the accept callback inside `BindNetwork` is modelled, as `AcceptConnection`, with the captured new-connection delegate as a parameter.
- The datagram callback (lines 144-153) has an empty body and is never expected to fire on a connection-oriented endpoint.
- Threads, timing and the race between a delegate being registered and the first inbound event are not modelled. The model fixes one order of events per scenario method. The test at lines 242-321 relies on timing that the model does not capture.
- `shared_ptr` lifetime, reference counting and the `unique_ptr` pimpl are not modelled. Objects are plain Dafny references.
- The move constructor and move assignment are declared in the header but not defined in the source.
- `StringUtils::sprintf` is replaced by the model's own decimal renderer, `Decimal.Dec`.
- The operating-system connection's own behaviour is not modelled: socket I/O, what `Close` does to processing, and when it calls the handlers. The handlers are modelled as the adapter methods `OnMessage` and `OnBroken`, which may be called only while the connection is processing.
- `PeerId.OctetsRecombine`: states the weighted sum in 32-bit arithmetic, not over unbounded integers, because the solver cannot relate bit-vector and integer values here. The OR form in the same lemma is equal to the sum, which shows that no carry occurs, so the 32-bit sum equals the integer sum.
- `AcceptConnection`: does not model an empty new-connection delegate. The source calls `newConnectionDelegate(adapter)` at line 142 without checking it first, unlike the data and broken delegates at lines 62 and 67. So an empty `std::function` passed to `BindNetwork` would throw `std::bad_function_call` on the accept thread. The model's `NewConnectionDelegate` parameter is non-null, which rules that error path out.
- `AcceptConnection`: the caller's callback is modelled as doing what the tests' callbacks do. It records the adapter and may install one fixed data delegate. A callback that installs a broken delegate, sends data or breaks the connection during the call is modelled by calling those adapter methods after `AcceptConnection` returns.
