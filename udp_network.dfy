/** The UDP listener and its per-peer client entries as objects. Each `lock`
    region of the original is one atomic method; the socket's receive side is the
    sequence of datagrams handed to AcceptConnection, its send side a function
    argument of WritePacket. The semaphore of an entry is a counter that the
    entry's invariant keeps equal to the length of its queue. */
module UdpNetwork {
  import opened Wrappers
  import opened UdpModel

  /** The new-connection record returned by AcceptConnection. */
  datatype AcceptState = AcceptState(client: UdpClientEntry, hostName: string, transport: string,
                                     listener: UdpNetworkListener)

  /** AcceptConnection either accepts a new peer, has consumed all datagrams
      offered and would go on waiting for the next one, or faults because the
      socket has been closed. */
  datatype AcceptOutcome = Accepted(state: AcceptState) | AwaitingDatagram | Faulted(error: Fault)

  class UdpNetworkListener {
    /** The endpoint the shared socket is bound to. */
    const localEndpoint: Endpoint
    /** IPEndPoint.ToString(), whose text format is not modelled. */
    const format: Endpoint -> string
    /** The registry: one entry per remote endpoint. */
    var clients: map<Endpoint, UdpClientEntry>
    /** Set by Dispose: the socket is closed and the shared cancellation token has fired. */
    var disposed: bool

    /** Every entry is registered under its own endpoint, belongs to this listener
        and keeps its semaphore count equal to its queue length. Because an entry's
        endpoint is fixed, distinct keys hold distinct entries. */
    ghost predicate Valid()
      reads this, clients.Values
    {
      forall ep :: ep in clients ==>
        clients[ep].endpoint == ep && clients[ep].listener == this && clients[ep].Valid()
    }

    /** The registry holds at most one entry per endpoint, and distinct endpoints
        hold distinct entries, so no entry sees another peer's datagrams. */
    lemma EntriesDistinct()
      requires Valid()
      ensures forall a, b :: a in clients && b in clients && a != b ==> clients[a] != clients[b]
    {
    }

    /** The queues of all registered entries, by endpoint. */
    ghost function Queues(): map<Endpoint, seq<Bytes>>
      reads this, clients.Values
    {
      map ep | ep in clients :: clients[ep].queue
    }

    constructor (port: int, global: bool, format: Endpoint -> string)
      ensures localEndpoint == BindEndpoint(port, global) && this.format == format
      ensures clients == map[] && !disposed && Valid()
    {
      localEndpoint := BindEndpoint(port, global);
      this.format := format;
      clients := map[];
      disposed := false;
    }

    /** The receive loop, fed with the datagrams the socket delivers. Each datagram
        is routed as Route says; a fresh entry is created, holding exactly the first
        datagram of an unregistered endpoint, inserted and returned in an accept
        event. Registered entries stay the same objects. */
    method AcceptConnection(incoming: seq<Datagram>) returns (consumed: nat, outcome: AcceptOutcome)
      requires Valid()
      modifies this`clients, clients.Values`queue, clients.Values`count
      ensures Valid() && disposed == old(disposed)
      ensures forall ep :: ep in old(clients) ==>
        && old(clients)[ep].userName == old(clients[ep].userName)
        && old(clients)[ep].hostName == old(clients[ep].hostName)
        && old(clients)[ep].clientEndpoint == old(clients[ep].clientEndpoint)
      ensures old(disposed) ==>
        consumed == 0 && outcome == Faulted(ObjectDisposed) && clients == old(clients) && Queues() == old(Queues())
      ensures !old(disposed) ==>
        && consumed == Route(old(Queues()), incoming).consumed
        && Queues() == Route(old(Queues()), incoming).queues
        && (outcome.Accepted? || outcome.AwaitingDatagram?)
        && (outcome.AwaitingDatagram? <==> Route(old(Queues()), incoming).accepted.None?)
      ensures outcome.AwaitingDatagram? ==> clients == old(clients)
      ensures outcome.Accepted? ==>
        var client := outcome.state.client;
        var ep := client.endpoint;
        && Route(old(Queues()), incoming).accepted == Some(ep)
        && fresh(client)
        && clients == old(clients)[ep := client]
        && client.queue == [incoming[consumed - 1].buffer]
        && outcome.state.hostName == format(ep)
        && outcome.state.transport == "UDP"
        && outcome.state.listener == this
        && client.listener == this
        && client.userName == "User_" + format(ep)
        && client.hostName == format(ep)
        && client.clientEndpoint == None
    {
      if disposed {
        // ReceiveAsync on a closed socket throws ObjectDisposedException.
        return 0, Faulted(ObjectDisposed);
      }
      var accepted;
      consumed, accepted := Demultiplex(incoming);
      if accepted.Some? {
        var client := accepted.value;
        outcome := Accepted(AcceptState(client, format(client.endpoint), "UDP", this));
      } else {
        outcome := AwaitingDatagram;
      }
    }

    /** The `while (true)` loop of AcceptConnection on an open socket: routes the
        datagrams as Route does and returns the entry it created, if any. */
    method Demultiplex(incoming: seq<Datagram>) returns (consumed: nat, accepted: Option<UdpClientEntry>)
      requires Valid()
      modifies this`clients, clients.Values`queue, clients.Values`count
      ensures Valid()
      ensures consumed == Route(old(Queues()), incoming).consumed
      ensures Queues() == Route(old(Queues()), incoming).queues
      ensures accepted.None? <==> Route(old(Queues()), incoming).accepted.None?
      ensures accepted.None? ==> clients == old(clients)
      ensures accepted.Some? ==>
        var client := accepted.value;
        && Route(old(Queues()), incoming).accepted == Some(client.endpoint)
        && fresh(client)
        && clients == old(clients)[client.endpoint := client]
        && client.queue == [incoming[consumed - 1].buffer]
        && client.listener == this
        && client.userName == "User_" + format(client.endpoint)
        && client.hostName == format(client.endpoint)
        && client.clientEndpoint == None
    {
      ghost var q0 := Queues();
      var i := 0;
      while i < |incoming|
        invariant 0 <= i <= |incoming|
        invariant Valid()
        invariant clients == old(clients)
        invariant Route(q0, incoming).queues == Route(Queues(), incoming[i..]).queues
        invariant Route(q0, incoming).accepted == Route(Queues(), incoming[i..]).accepted
        invariant Route(q0, incoming).consumed == i + Route(Queues(), incoming[i..]).consumed
      {
        var d := incoming[i];
        ghost var q := Queues();
        assert incoming[i..] == [d] + incoming[i + 1..];
        if d.remote in clients {
          Deliver(d);
          RouteKnownAppends(q, d, incoming[i + 1..]);
          i := i + 1;
        } else {
          var client := Register(d);
          RouteNewAccepts(q, d, incoming[i + 1..]);
          return i + 1, Some(client);
        }
      }
      return |incoming|, None;
    }

    /** The registered branch of the loop: the datagram joins the tail of the
        queue of the entry registered for its sender, and no other queue changes. */
    method Deliver(d: Datagram)
      requires Valid() && d.remote in clients
      modifies (clients[d.remote] as UdpClientEntry)`queue, (clients[d.remote] as UdpClientEntry)`count
      ensures Valid() && clients == old(clients)
      ensures Queues() == old(Queues())[d.remote := old(Queues())[d.remote] + [d.buffer]]
    {
      var entry := clients[d.remote];
      entry.Enqueue(d.buffer);
      forall ep | ep in clients && ep != d.remote
        ensures clients[ep] != entry && clients[ep].queue == old(clients[ep].queue)
      {
      }
    }

    /** The unregistered branch of the loop: a fresh entry holding exactly this
        datagram is inserted under its sender, and no other queue changes. */
    method Register(d: Datagram) returns (client: UdpClientEntry)
      requires Valid() && d.remote !in clients
      modifies this`clients
      ensures Valid() && fresh(client)
      ensures clients == old(clients)[d.remote := client]
      ensures Queues() == old(Queues())[d.remote := [d.buffer]]
      ensures client.endpoint == d.remote && client.listener == this && client.queue == [d.buffer]
      ensures client.userName == "User_" + format(d.remote) && client.hostName == format(d.remote)
      ensures client.clientEndpoint == None
    {
      client := new UdpClientEntry(this, d.remote);
      client.Enqueue(d.buffer);
      ghost var q := old(Queues());
      clients := clients[d.remote := client];
      forall ep | ep in clients && ep != d.remote
        ensures clients[ep] == old(clients)[ep] && Queues()[ep] == q[ep]
      {
      }
      assert Queues().Keys == q.Keys + {d.remote};
      assert Queues()[d.remote] == [d.buffer];
    }

    /** Closes the socket and fires the shared cancellation token, so that pending
        and later reads of every entry are cancelled. The registry is left as it is. */
    method Dispose()
      requires Valid()
      modifies this`disposed
      ensures Valid() && disposed
    {
      disposed := true;
    }
  }

  class UdpClientEntry {
    const listener: UdpNetworkListener
    const endpoint: Endpoint
    /** Datagrams received and not yet read, oldest first. */
    var queue: seq<Bytes>
    /** The semaphore's current count. */
    var count: nat
    var userName: string
    var hostName: string
    var clientEndpoint: Option<Endpoint>

    /** The semaphore counts the queued datagrams. */
    ghost predicate Valid()
      reads this
    {
      count == |queue|
    }

    constructor (listener: UdpNetworkListener, endpoint: Endpoint)
      ensures this.listener == listener && this.endpoint == endpoint
      ensures queue == [] && count == 0 && Valid()
      ensures userName == "User_" + listener.format(endpoint)
      ensures hostName == listener.format(endpoint)
      ensures clientEndpoint == None
    {
      this.listener := listener;
      this.endpoint := endpoint;
      count := 0;
      queue := [];
      userName := "User_" + listener.format(endpoint);
      hostName := listener.format(endpoint);
      clientEndpoint := None;
    }

    /** Appends one datagram to the tail of the queue and releases one unit of
        the semaphore. */
    method Enqueue(data: Bytes)
      requires Valid()
      modifies this`queue, this`count
      ensures Valid()
      ensures queue == old(queue) + [data] && count == old(count) + 1
    {
      queue := queue + [data];
      count := count + 1;
    }

    /** Serialises `packet` with `encode` and sends it to this entry's endpoint
        with `send`; succeeds exactly when the send reports the serialised length.
        A codec exception, a send exception and a closed socket all give false. */
    method WritePacket<P>(packet: P, encode: P -> Result<Bytes, string>, send: (Bytes, Endpoint) -> SendResult)
      returns (ok: bool)
      ensures ok <==>
        && !listener.disposed
        && encode(packet).Success?
        && send(encode(packet).value, endpoint) == Sent(|encode(packet).value|)
    {
      var data := encode(packet);
      if data.Failure? {
        return false;
      }
      if listener.disposed {
        // SendAsync on a closed socket throws ObjectDisposedException.
        return false;
      }
      var sent := send(data.value, endpoint);
      match sent
      case Sent(n) => ok := n == |data.value|;
      case Threw(_) => ok := false;
    }

    /** One ReadPacketAsync with its wait and dequeue taken as one step: what
        ReadNext says of the old queue and the listener's cancellation. Because
        the count equals the queue length, a wait that succeeds always finds a
        datagram to dequeue. */
    method ReadPacket<P>(decode: Bytes -> Result<P, string>) returns (step: ReadStep<P>)
      requires Valid()
      modifies this`queue, this`count
      ensures Valid()
      ensures (step, queue) == ReadNext(old(queue), listener.disposed, decode)
      ensures old(listener.Valid()) ==> listener.Valid()
    {
      if listener.disposed {
        step := Done(ReadPacketState(None, Some(OperationCanceled)));
      } else if count == 0 {
        step := Suspended;
      } else {
        count := count - 1;
        var data := queue[0];
        queue := queue[1..];
        step := Done(Decoded(decode(data)));
      }
    }

    /** The XOR obfuscation key has no use on a datagram transport: nothing changes. */
    method SetXorKey(xorKey: bv8)
      ensures unchanged(this, listener)
    {
    }

    /** Deregisters this entry: its endpoint is removed only while it still maps
        to this entry, so disposing a stale entry never removes its successor and
        a second Dispose changes nothing. */
    method Dispose()
      requires listener.Valid()
      modifies listener`clients
      ensures listener.Valid()
      ensures listener.clients == Deregister(old(listener.clients), endpoint, this)
    {
      if endpoint in listener.clients && listener.clients[endpoint] == this {
        listener.clients := listener.clients - {endpoint};
      }
    }

    /** Dispose as the source writes it: the endpoint is removed whichever entry
        is registered under it. */
    method DisposeAsWritten()
      requires listener.Valid()
      modifies listener`clients
      ensures listener.Valid()
      ensures listener.clients == RemoveAsWritten(old(listener.clients), endpoint)
    {
      listener.clients := listener.clients - {endpoint};
    }
  }

  /** A peer sends [0x01, 0x02] and then [0x03] to a listener bound to the
      loopback on port 9000. The first datagram is accepted; the second joins the
      new entry's queue; reads return the two buffers in order and then suspend,
      and after the listener is disposed the read returns a cancellation. */
  method TwoDatagramScenario(peer: Endpoint, format: Endpoint -> string)
  {
    var listener := new UdpNetworkListener(9000, false, format);
    var decode := (b: Bytes) => Success(b);
    var incoming := [Datagram(peer, [0x01, 0x02]), Datagram(peer, [0x03])];
    var consumed, outcome := listener.AcceptConnection(incoming);
    assert [Datagram(peer, [0x01, 0x02]), Datagram(peer, [0x03])][1..] == [Datagram(peer, [0x03])];
    assert consumed == 1 && outcome.Accepted?;
    var entry := outcome.state.client;
    assert outcome.state.hostName == format(peer);
    var more, waiting := listener.AcceptConnection(incoming[consumed..]);
    assert waiting == AwaitingDatagram;
    assert entry.queue == [[0x01, 0x02], [0x03]];
    var first := entry.ReadPacket(decode);
    assert first == Done(ReadPacketState(Some([0x01, 0x02]), None));
    var second := entry.ReadPacket(decode);
    assert second == Done(ReadPacketState(Some([0x03]), None));
    var third := entry.ReadPacket(decode);
    assert third == Suspended;
    listener.Dispose();
    third := entry.ReadPacket(decode);
    assert third == Done(ReadPacketState(None, Some(OperationCanceled)));
  }

  /** The defect of Dispose as written: an entry disposed twice, the second time
      after its peer has been accepted again, removes the live successor, and the
      peer's next datagram yields a second accept while that successor was never
      closed. The corrected Dispose leaves the successor registered. */
  method StaleDisposeScenario(peer: Endpoint, format: Endpoint -> string)
  {
    var listener := new UdpNetworkListener(9000, false, format);
    var hello := [Datagram(peer, [0x01])];
    var _, first := listener.AcceptConnection(hello);
    var stale := first.state.client;
    stale.DisposeAsWritten();
    var _, second := listener.AcceptConnection(hello);
    var live := second.state.client;
    assert listener.clients == map[peer := live];
    stale.DisposeAsWritten();
    assert peer !in listener.clients;   // the live session is no longer registered
    var _, third := listener.AcceptConnection(hello);
    assert third.Accepted? && third.state.client != live;
  }

  /** The same sequence of events with the corrected Dispose: the second Dispose
      of the stale entry leaves its successor registered, and the peer's next
      datagram is delivered to that successor without a new accept. */
  method CorrectedDisposeScenario(peer: Endpoint, format: Endpoint -> string)
  {
    var hello := [Datagram(peer, [0x01])];
    var fixedListener := new UdpNetworkListener(9000, false, format);
    var _, a := fixedListener.AcceptConnection(hello);
    var oldEntry := a.state.client;
    oldEntry.Dispose();
    var _, b := fixedListener.AcceptConnection(hello);
    var successor := b.state.client;
    oldEntry.Dispose();
    assert fixedListener.clients == map[peer := successor];
    var _, c := fixedListener.AcceptConnection(hello);
    assert c.AwaitingDatagram?;
  }
}
