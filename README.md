# A verified model of the UDP network transport of ExampleChatApplication

`ChatServer/UdpNetwork.cs` makes one UDP socket look like a set of per-client
connections. `UdpNetworkListener` keeps a dictionary from remote `IPEndPoint` to
`UdpClientEntry`. Its `AcceptConnection` loop receives datagrams. A datagram from
a known endpoint is appended to that entry's queue. A datagram from an unknown
endpoint creates a new entry that holds exactly this datagram, and the loop
returns an accept event for it. Each entry has a FIFO queue of datagrams and a
semaphore that counts them. `ReadPacketAsync` waits on the semaphore and dequeues
one datagram. `WritePacket` sends one datagram. `Dispose` deregisters the entry.

The project has three files:

- `wrappers.dfy` (module `Wrappers`): `Option` and `Result`.
- `udp_model.dfy` (module `UdpModel`): endpoints and datagrams as values, and the
  value-level specifications the classes are proved against.
  - `Route` is the receive loop over abstract queues.
  - `FromPeer` gives the buffers one endpoint sent.
  - `ReadNext` is one packet read; `Drain` is several reads in a row.
  - `Deregister` and `RemoveAsWritten` are the two forms of entry disposal.
  - The lemmas about these functions state FIFO order, isolation between peers
    and exactly-once accept.
- `udp_network.dfy` (module `UdpNetwork`): the classes `UdpNetworkListener` and
  `UdpClientEntry`.
  - Their fields are the source's fields. The dictionary is a `map`, the queue a
    `seq`, the semaphore a `nat` count.
  - Each `lock` region is one atomic method. The methods' `ensures` tie the new
    state to the functions of `UdpModel`.
  - The invariant `Valid()` says each entry sits under its own endpoint, belongs
    to its listener and has a semaphore count equal to its queue length.
  - Three client methods replay concrete sequences of events against these
    contracts:
    - `TwoDatagramScenario`: two datagrams from one peer on a listener bound to
      the loopback on port 9000; then reads, disposal and a cancelled read.
    - `StaleDisposeScenario` and `CorrectedDisposeScenario`: the Dispose defect
      under Findings, with the source's Dispose and with the corrected one.

Abstractions:

- The socket's receive side is the sequence of datagrams passed to
  `AcceptConnection`. That method stops at the first datagram from an
  unregistered endpoint, or when the sequence runs out. Running out stands for
  the real loop still waiting in `ReceiveAsync`.
- The socket's send side is a function argument of `WritePacket`. It returns a
  byte count or an exception.
- The packet codec (encode and decode) is a function argument. Decoding may fail.
- `IPEndPoint.ToString()` is the listener's constant `format`.
- Listener disposal is the flag `disposed`. It stands for both the closed socket
  and the fired cancellation token, which every entry shares.
- A read that would block on the semaphore returns `Suspended`.

In three places the model follows the code where a connection-oriented design would
suggest otherwise:

- Accepting on a disposed listener faults with the socket's `ObjectDisposed`
  exception, not with a cancellation.
- Disposing the listener does not clear the registry.
- A cancelled token makes a read return the cancellation at once, even when
  datagrams are queued. `SemaphoreSlim.WaitAsync` checks the token before the
  count.

## Model

| member | source | states |
|---|---|---|
| `UdpNetwork.UdpNetworkListener.constructor` | ChatServer/UdpNetwork.cs:34-39 | the listener starts bound to the given port on 0.0.0.0 when global, else on 127.0.0.1, with an empty registry, not disposed, and with its invariant established |
| `UdpModel.Route` | ChatServer/UdpNetwork.cs:41-61 | the receive loop consumes at most the datagrams offered, and the registry gains exactly the accepted endpoint as a new key, or no key when nothing is accepted |
| `UdpModel.RouteStops` | ChatServer/UdpNetwork.cs:43-58 | the loop runs out of input only if every datagram came from a registered endpoint; otherwise it stops right after the first datagram from an unregistered endpoint and accepts that endpoint, which was not registered before |
| `UdpModel.RouteDelivers` | ChatServer/UdpNetwork.cs:46-57 | after routing, each endpoint's queue is its old queue followed by exactly the buffers that endpoint sent among the consumed datagrams, in arrival order: per-peer FIFO, and no datagram reaches another peer's queue |
| `UdpModel.RouteKnownAppends` | ChatServer/UdpNetwork.cs:48-51 | a datagram from a registered endpoint goes to the tail of that endpoint's queue, adds no key, and the loop continues with the next datagram |
| `UdpModel.RouteNewAccepts` | ChatServer/UdpNetwork.cs:52-57 | a datagram from an unregistered endpoint is the only one consumed, becomes that endpoint's whole queue, leaves every other queue as it was, and ends the loop with an accept for that endpoint |
| `UdpModel.AcceptOncePerRegistration` | ChatServer/UdpNetwork.cs:48-57 | an accepted endpoint stays registered, so no later run of the loop accepts it again |
| `UdpModel.FirstContactScenario` | ChatServer/UdpNetwork.cs:48-57 | N datagrams from one new peer give exactly one accept, on the first datagram, whose queue then holds that datagram alone; the next run takes the other N-1 without an accept and the queue holds all N in order |
| `UdpNetwork.UdpNetworkListener.AcceptConnection` | ChatServer/UdpNetwork.cs:41-61 | on an open listener, the new queues and the number of datagrams consumed are those of Route, and it accepts exactly when Route does. The accept holds a fresh entry for the new endpoint, inserted under that endpoint with its first datagram as its only queued buffer. The event carries that entry, the endpoint's string, "UDP" and this listener. Existing keys keep their entries, and their user names, host names and ClientEndpoint fields are unchanged. On a disposed listener it faults with ObjectDisposed and changes nothing. |
| `UdpNetwork.UdpNetworkListener.Demultiplex` | ChatServer/UdpNetwork.cs:43-60 | the loop on an open socket leaves the queues Route gives and consumes as many datagrams as Route does; it returns a fresh entry exactly when Route accepts, registered under the accepted endpoint and holding only the last consumed datagram; with no accept the registry is unchanged |
| `UdpNetwork.UdpNetworkListener.Deliver` | ChatServer/UdpNetwork.cs:48-51 | delivery to a registered endpoint appends the buffer to that entry's queue and changes no other queue or key; only the queue and count fields of that entry may change |
| `UdpNetwork.UdpNetworkListener.Register` | ChatServer/UdpNetwork.cs:54-56 | registration inserts a fresh entry that holds exactly the datagram, under its sender, with user name "User_" + endpoint and host name the endpoint string; no other queue changes |
| `UdpNetwork.UdpNetworkListener.EntriesDistinct` | ChatServer/UdpNetwork.cs:31 | distinct endpoints never share an entry |
| `UdpNetwork.UdpNetworkListener.Dispose` | ChatServer/UdpNetwork.cs:63-67 | disposal closes the socket and cancels the shared token, and keeps the invariant |
| `UdpNetwork.UdpClientEntry.constructor` | ChatServer/UdpNetwork.cs:139-148 | a new entry has an empty queue and a zero count; its user name is "User_" + endpoint, its host name is the endpoint string, and its ClientEndpoint is unset |
| `UdpNetwork.UdpClientEntry.Enqueue` | ChatServer/UdpNetwork.cs:81-88 | the datagram goes to the tail of the queue and the count goes up by one, so the count still equals the queue length |
| `UdpNetwork.UdpClientEntry.ReadPacket` | ChatServer/UdpNetwork.cs:105-124 | a read follows ReadNext on the old queue. A cancelled token gives "no packet, OperationCanceled" and consumes nothing. A zero count suspends the read. Otherwise the head buffer is dequeued and decodes to a packet, or to no packet and the codec's error. The count stays equal to the queue length, so the dequeue never finds the queue empty. |
| `UdpModel.ReadTakesHead` | ChatServer/UdpNetwork.cs:109-118 | an uncancelled read of a non-empty queue returns the decoded head and leaves exactly the old tail, even when decoding fails |
| `UdpModel.CancelledReadConsumesNothing` | ChatServer/UdpNetwork.cs:107-123 | a cancelled read returns no packet with OperationCanceled and leaves the queue as it was |
| `UdpModel.DrainInOrder` | ChatServer/UdpNetwork.cs:105-118 | successive reads return the queued buffers in queue order, one per read, then suspend |
| `UdpModel.ReadsFollowArrival` | ChatServer/UdpNetwork.cs:46-118 | for a peer with nothing unread, reads after routing return exactly the datagrams it sent, in arrival order, then suspend |
| `UdpNetwork.UdpClientEntry.WritePacket` | ChatServer/UdpNetwork.cs:90-103 | a write succeeds exactly when serialisation succeeds, the socket is open and the send reports the serialised length; any exception gives false |
| `UdpNetwork.UdpClientEntry.SetXorKey` | ChatServer/UdpNetwork.cs:126-129 | setting the XOR key changes nothing |
| `UdpNetwork.UdpClientEntry.Dispose` | ChatServer/UdpNetwork.cs:131-137 | corrected deregistration: removes the entry's endpoint only while it maps to this entry, and keeps the listener's invariant |
| `UdpModel.DeregisterOnlyOwn` | ChatServer/UdpNetwork.cs:131-137 | deregistration removes the disposing entry, keeps every other entry under its key, removes nothing when the key is absent, and a repeat changes nothing more |
| `UdpNetwork.UdpClientEntry.DisposeAsWritten` | ChatServer/UdpNetwork.cs:131-137 | disposal as written removes the entry's endpoint whatever entry is registered under it |
| `UdpModel.StaleDisposeDropsLiveSession` | ChatServer/UdpNetwork.cs:131-137 | a stale entry disposed as written removes the live successor registered under its endpoint, and the peer's next datagram is then accepted again; Deregister leaves the registry unchanged |

## Left out

- Socket construction, binding, `ReceiveAsync` and `SendAsync`: socket I/O. Received datagrams are an input sequence; a send is a function that returns a byte count or an exception.
- `async`/`await`, `SemaphoreSlim` blocking and `lock`: concurrency. Each locked region is one atomic step. The semaphore wait and the dequeue of one read are also one step, so the count equals the queue length between steps. A read that would block returns `Suspended`; the cancellation that would wake it is the same as a read after disposal.
- Receive faults other than a closed socket are not modelled. In the source, any exception from `ReceiveAsync`, such as a `SocketException`, faults `AcceptConnection` and ends the loop. Only the closed-socket fault is modelled, because the input sequence cannot express the others.
- `CancellationTokenSource` and the disposal of the socket: one `disposed` flag stands for both, set by the listener's `Dispose`.
- The `BinaryNetworkTransport` codec is not part of this model. Encoding and decoding are function arguments, and either may report an error.
- The text format of `IPEndPoint.ToString()` is the abstract constant `format`.
- An endpoint is modelled as the address bytes plus the port. IPv6 scope ids and address families are not modelled.
- The fifth, always-null argument of `AcceptState` and the client field of `ReadPacketState` are not modelled. The `AcceptState` and `ReadPacketState` classes are not part of this model; the client field is always the entry that was read.

## Findings

| source | as written | input that shows it | evidently intended | confidence | as-written member | corrected member |
|---|---|---|---|---|---|---|
| ChatServer/UdpNetwork.cs:131-137 | `Dispose` removes its endpoint from the dictionary whatever entry is now registered under it | peer P is accepted as entry E1; E1 is disposed; P's next datagram creates and accepts E2; E1 is disposed again. E2 is removed although it was never closed, and P's next datagram creates a third entry with a second accept while E2 still exists | an entry removes only itself, so a repeated Dispose has no effect (the idempotent close of IDisposable) | medium, not executed | `UdpNetwork.UdpClientEntry.DisposeAsWritten` (exhibited by `UdpModel.StaleDisposeDropsLiveSession` and `UdpNetwork.StaleDisposeScenario`) | `UdpNetwork.UdpClientEntry.Dispose` (proved by `UdpModel.DeregisterOnlyOwn` and `UdpNetwork.CorrectedDisposeScenario`) |
