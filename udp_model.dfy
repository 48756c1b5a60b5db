/** Value-level model of the UDP transport: datagrams, the routing of a stream of
    datagrams into per-endpoint queues, the outcome of one packet read and the
    removal of a session from the registry. The classes in module UdpNetwork are
    proved against these functions. */
module UdpModel {
  import opened Wrappers

  type Bytes = seq<bv8>

  /** An IPEndPoint: address bytes and port. Two endpoints are the same dictionary
      key exactly when both parts are equal. */
  datatype Endpoint = Endpoint(address: Bytes, port: int)

  /** IPAddress.Any and IPAddress.Loopback. */
  const AnyAddress: Bytes := [0, 0, 0, 0]
  const LoopbackAddress: Bytes := [127, 0, 0, 1]

  /** The local endpoint the listener binds: every interface when `global`, else the loopback. */
  function BindEndpoint(port: int, global: bool): Endpoint
  {
    Endpoint(if global then AnyAddress else LoopbackAddress, port)
  }

  /** One UdpReceiveResult: the sender and the payload of one datagram. */
  datatype Datagram = Datagram(remote: Endpoint, buffer: Bytes)

  /** The exceptions the transport reports instead of raising them. */
  datatype Fault =
    | OperationCanceled          // the listener's cancellation token fired
    | ObjectDisposed             // the shared socket has been closed
    | CodecError(message: string) // the packet codec rejected a buffer

  /** A ReadPacketState without its client field (always the entry that was read). */
  datatype ReadPacketState<P> = ReadPacketState(packet: Option<P>, error: Option<Fault>)

  /** A read either completes with a state, or is suspended on the semaphore. */
  datatype ReadStep<P> = Done(state: ReadPacketState<P>) | Suspended

  /** What the socket's send reported: a byte count, or an exception. */
  datatype SendResult = Sent(count: int) | Threw(message: string)

  // ---------------------------------------------------------------------------
  // Demultiplexing
  // ---------------------------------------------------------------------------

  /** The queues after routing, how many datagrams were taken off the socket,
      and the endpoint whose first datagram ended the loop, if any. */
  datatype Routed = Routed(queues: map<Endpoint, seq<Bytes>>, consumed: nat, accepted: Option<Endpoint>)

  /** The receive loop of AcceptConnection on abstract queues: a datagram from a
      registered endpoint joins the tail of its queue and the loop goes on; the
      first datagram from an unregistered endpoint becomes the whole queue of a new
      entry and ends the loop with an accept. The loop also ends when the input does. */
  function Route(queues: map<Endpoint, seq<Bytes>>, incoming: seq<Datagram>): (r: Routed)
    ensures r.consumed <= |incoming|
    ensures r.queues.Keys == if r.accepted.Some? then queues.Keys + {r.accepted.value} else queues.Keys
    decreases |incoming|
  {
    if incoming == [] then Routed(queues, 0, None)
    else
      var d := incoming[0];
      if d.remote in queues then
        var rest := Route(queues[d.remote := queues[d.remote] + [d.buffer]], incoming[1..]);
        Routed(rest.queues, rest.consumed + 1, rest.accepted)
      else
        Routed(queues[d.remote := [d.buffer]], 1, Some(d.remote))
  }

  /** Where routing stops: it runs out of input only if every datagram came from a
      registered endpoint; otherwise it stops right after the first datagram from
      an unregistered endpoint, and accepts that endpoint. */
  lemma {:induction false} RouteStops(queues: map<Endpoint, seq<Bytes>>, incoming: seq<Datagram>)
    ensures var r := Route(queues, incoming);
      r.accepted.None? ==>
        r.consumed == |incoming| && forall k :: 0 <= k < |incoming| ==> incoming[k].remote in queues
    ensures var r := Route(queues, incoming);
      r.accepted.Some? ==>
        && 0 < r.consumed
        && r.accepted.value == incoming[r.consumed - 1].remote
        && r.accepted.value !in queues
        && forall k :: 0 <= k < r.consumed - 1 ==> incoming[k].remote in queues
    decreases |incoming|
  {
    if incoming != [] {
      var d := incoming[0];
      if d.remote in queues {
        var q' := queues[d.remote := queues[d.remote] + [d.buffer]];
        RouteStops(q', incoming[1..]);
        assert q'.Keys == queues.Keys;
        forall k | 1 <= k < |incoming| ensures incoming[k] == incoming[1..][k - 1] { }
      }
    }
  }

  /** The buffers of the datagrams in `ds` that came from `ep`, in arrival order. */
  function FromPeer(ds: seq<Datagram>, ep: Endpoint): (r: seq<Bytes>)
  {
    if ds == [] then []
    else (if ds[0].remote == ep then [ds[0].buffer] else []) + FromPeer(ds[1..], ep)
  }

  /** The queue of `ep`, empty when `ep` has no entry. */
  function QueueOf(queues: map<Endpoint, seq<Bytes>>, ep: Endpoint): (r: seq<Bytes>)
  {
    if ep in queues then queues[ep] else []
  }

  lemma FromPeerCons(d: Datagram, ds: seq<Datagram>, ep: Endpoint)
    ensures FromPeer([d] + ds, ep) == (if d.remote == ep then [d.buffer] else []) + FromPeer(ds, ep)
  {
    assert ([d] + ds)[0] == d;
    assert ([d] + ds)[1..] == ds;
  }

  /** Per-peer FIFO and cross-peer isolation: after routing, the queue of every
      endpoint is its old queue followed by exactly the buffers that endpoint sent
      among the consumed datagrams, in the order they arrived; nothing any other
      endpoint sent reaches it. */
  lemma {:induction false} RouteDelivers(queues: map<Endpoint, seq<Bytes>>, incoming: seq<Datagram>, ep: Endpoint)
    ensures var r := Route(queues, incoming);
      QueueOf(r.queues, ep) == QueueOf(queues, ep) + FromPeer(incoming[..r.consumed], ep)
    decreases |incoming|
  {
    if incoming == [] {
      var r := Route(queues, incoming);
      assert incoming[..r.consumed] == [];
    } else {
      var d := incoming[0];
      if d.remote in queues {
        var q' := queues[d.remote := queues[d.remote] + [d.buffer]];
        RouteDelivers(q', incoming[1..], ep);
        RouteDeliversStep(queues, incoming, ep);
      } else {
        var r := Route(queues, incoming);
        assert incoming[..r.consumed] == [d];
        FromPeerCons(d, [], ep);
      }
    }
  }

  /** The known-endpoint step of RouteDelivers: the prefix consumed by the whole
      run is the head followed by the prefix consumed by the rest of the run. */
  lemma RouteDeliversStep(queues: map<Endpoint, seq<Bytes>>, incoming: seq<Datagram>, ep: Endpoint)
    requires incoming != [] && incoming[0].remote in queues
    requires var d := incoming[0];
      var q' := queues[d.remote := queues[d.remote] + [d.buffer]];
      var rest := Route(q', incoming[1..]);
      QueueOf(rest.queues, ep) == QueueOf(q', ep) + FromPeer(incoming[1..][..rest.consumed], ep)
    ensures var r := Route(queues, incoming);
      QueueOf(r.queues, ep) == QueueOf(queues, ep) + FromPeer(incoming[..r.consumed], ep)
  {
    var d := incoming[0];
    var q' := queues[d.remote := queues[d.remote] + [d.buffer]];
    var rest := Route(q', incoming[1..]);
    var r := Route(queues, incoming);
    var tail := incoming[1..][..rest.consumed];
    var own := if d.remote == ep then [d.buffer] else [];
    assert r.queues == rest.queues && r.consumed == rest.consumed + 1;
    assert incoming[..r.consumed] == [d] + tail;
    FromPeerCons(d, tail, ep);
    assert QueueOf(q', ep) == QueueOf(queues, ep) + own;
    calc {
      QueueOf(r.queues, ep);
      QueueOf(q', ep) + FromPeer(tail, ep);
      (QueueOf(queues, ep) + own) + FromPeer(tail, ep);
      { assert (QueueOf(queues, ep) + own) + FromPeer(tail, ep) == QueueOf(queues, ep) + (own + FromPeer(tail, ep)); }
      QueueOf(queues, ep) + FromPeer([d] + tail, ep);
    }
  }

  /** A datagram from an endpoint with a registered queue never starts a new
      session: it is appended, and routing carries on with the next datagram. */
  lemma RouteKnownAppends(queues: map<Endpoint, seq<Bytes>>, d: Datagram, rest: seq<Datagram>)
    requires d.remote in queues
    ensures var r := Route(queues, [d] + rest);
      var r' := Route(queues[d.remote := queues[d.remote] + [d.buffer]], rest);
      r.queues == r'.queues && r.accepted == r'.accepted && r.consumed == r'.consumed + 1
  {
    assert ([d] + rest)[0] == d;
    assert ([d] + rest)[1..] == rest;
  }

  /** First contact: a datagram from an unregistered endpoint is the only one
      consumed, it is the whole queue of the new entry, the endpoint is accepted,
      and every other queue is untouched. */
  lemma RouteNewAccepts(queues: map<Endpoint, seq<Bytes>>, d: Datagram, rest: seq<Datagram>)
    requires d.remote !in queues
    ensures var r := Route(queues, [d] + rest);
      && r.accepted == Some(d.remote) && r.consumed == 1
      && r.queues == queues[d.remote := [d.buffer]]
  {
    assert ([d] + rest)[0] == d;
  }

  /** Exactly one accept per registration: an endpoint that was accepted has a
      queue from then on, so routing any later datagrams never accepts it again. */
  lemma AcceptOncePerRegistration(queues: map<Endpoint, seq<Bytes>>, first: seq<Datagram>, later: seq<Datagram>)
    requires Route(queues, first).accepted.Some?
    ensures var ep := Route(queues, first).accepted.value;
      var r := Route(Route(queues, first).queues, later);
      ep in r.queues && r.accepted != Some(ep)
  {
    RouteStops(Route(queues, first).queues, later);
  }

  /** A peer that sends N datagrams before any read is accepted once, on its first
      datagram, whose queue then holds that datagram alone; the next routing run
      takes the remaining N-1 without an accept and leaves the queue holding all N
      buffers in order. */
  lemma {:induction false} FirstContactScenario(queues: map<Endpoint, seq<Bytes>>, ep: Endpoint, ds: seq<Datagram>)
    requires ep !in queues && |ds| > 0
    requires forall k :: 0 <= k < |ds| ==> ds[k].remote == ep
    ensures var r1 := Route(queues, ds);
      && r1.accepted == Some(ep) && r1.consumed == 1 && r1.queues[ep] == [ds[0].buffer]
      && var r2 := Route(r1.queues, ds[1..]);
         && r2.accepted == None && r2.consumed == |ds| - 1
         && |r2.queues[ep]| == |ds|
         && forall k :: 0 <= k < |ds| ==> r2.queues[ep][k] == ds[k].buffer
  {
    assert ds == [ds[0]] + ds[1..];
    RouteNewAccepts(queues, ds[0], ds[1..]);
    var r1 := Route(queues, ds);
    var r2 := Route(r1.queues, ds[1..]);
    RouteStops(r1.queues, ds[1..]);
    RouteDelivers(r1.queues, ds[1..], ep);
    assert ds[1..][..r2.consumed] == ds[1..];
    FromPeerAll(ds[1..], ep);
    assert r2.queues[ep] == [ds[0].buffer] + FromPeer(ds[1..], ep);
  }

  /** When every datagram came from `ep`, the buffers routed to `ep` are all of them. */
  lemma {:induction false} FromPeerAll(ds: seq<Datagram>, ep: Endpoint)
    requires forall k :: 0 <= k < |ds| ==> ds[k].remote == ep
    ensures |FromPeer(ds, ep)| == |ds|
    ensures forall k :: 0 <= k < |ds| ==> FromPeer(ds, ep)[k] == ds[k].buffer
    decreases |ds|
  {
    if ds != [] {
      FromPeerAll(ds[1..], ep);
    }
  }

  // ---------------------------------------------------------------------------
  // Reading one packet
  // ---------------------------------------------------------------------------

  /** The read state for one dequeued buffer: the packet when the codec accepts the
      buffer, otherwise no packet and the codec's exception. */
  function Decoded<P>(d: Result<P, string>): (r: ReadPacketState<P>)
  {
    match d
    case Success(p) => ReadPacketState(Some(p), None)
    case Failure(m) => ReadPacketState(None, Some(CodecError(m)))
  }

  /** One ReadPacketAsync, as the outcome and the queue it leaves. A cancelled
      token faults the wait before the count is looked at; an empty queue (a zero
      semaphore count) suspends the reader; otherwise the head buffer is dequeued
      and handed to the codec. */
  function ReadNext<P>(queue: seq<Bytes>, cancelled: bool, decode: Bytes -> Result<P, string>): (r: (ReadStep<P>, seq<Bytes>))
  {
    if cancelled then (Done(ReadPacketState(None, Some(OperationCanceled))), queue)
    else if queue == [] then (Suspended, queue)
    else (Done(Decoded(decode(queue[0]))), queue[1..])
  }

  /** A successful read returns the head buffer, decoded, and leaves the old tail:
      no buffer is split or merged. A decode failure still consumes that buffer. */
  lemma ReadTakesHead<P>(queue: seq<Bytes>, decode: Bytes -> Result<P, string>)
    requires queue != []
    ensures ReadNext(queue, false, decode).1 == queue[1..]
    ensures decode(queue[0]).Success? ==>
      ReadNext(queue, false, decode).0 == Done(ReadPacketState(Some(decode(queue[0]).value), None))
    ensures decode(queue[0]).Failure? ==>
      ReadNext(queue, false, decode).0 == Done(ReadPacketState(None, Some(CodecError(decode(queue[0]).error))))
  {
  }

  /** A cancelled read reports OperationCanceled with no packet and consumes nothing,
      whether or not buffers are waiting. */
  lemma CancelledReadConsumesNothing<P>(queue: seq<Bytes>, decode: Bytes -> Result<P, string>)
    ensures ReadNext(queue, true, decode) == (Done(ReadPacketState(None, Some(OperationCanceled))), queue)
  {
  }

  /** `n` successive reads on an uncancelled entry with no new arrivals. */
  function Drain<P>(queue: seq<Bytes>, n: nat, decode: Bytes -> Result<P, string>): (r: seq<ReadStep<P>>)
    ensures |r| == n
  {
    if n == 0 then []
    else
      var next := ReadNext(queue, false, decode);
      [next.0] + Drain(next.1, n - 1, decode)
  }

  /** Reads return the queued buffers in queue order, one buffer per read, and
      suspend once the queue is exhausted. */
  lemma {:induction false} DrainInOrder<P>(queue: seq<Bytes>, n: nat, decode: Bytes -> Result<P, string>, k: nat)
    requires k < n
    ensures Drain(queue, n, decode)[k] == if k < |queue| then Done(Decoded(decode(queue[k]))) else Suspended
    decreases n
  {
    var next := ReadNext(queue, false, decode);
    if k > 0 {
      DrainInOrder(next.1, n - 1, decode, k - 1);
      if k < |queue| {
        assert queue[1..][k - 1] == queue[k];
      }
    }
  }

  /** End to end: when `ep` had nothing unread, successive reads on its entry
      after routing return exactly the datagrams `ep` sent, in the order they
      were received, and nothing sent by another endpoint. */
  lemma ReadsFollowArrival<P>(queues: map<Endpoint, seq<Bytes>>, incoming: seq<Datagram>, ep: Endpoint,
                              n: nat, decode: Bytes -> Result<P, string>, k: nat)
    requires QueueOf(queues, ep) == []
    requires k < n
    ensures var sent := FromPeer(incoming[..Route(queues, incoming).consumed], ep);
      Drain(QueueOf(Route(queues, incoming).queues, ep), n, decode)[k]
        == if k < |sent| then Done(Decoded(decode(sent[k]))) else Suspended
  {
    RouteDelivers(queues, incoming, ep);
    var r := Route(queues, incoming);
    assert QueueOf(r.queues, ep) == FromPeer(incoming[..r.consumed], ep);
    DrainInOrder(QueueOf(r.queues, ep), n, decode, k);
  }

  // ---------------------------------------------------------------------------
  // Deregistration
  // ---------------------------------------------------------------------------

  /** UdpClientEntry.Dispose as written: remove the entry's endpoint, whatever
      entry is now registered under it. */
  function RemoveAsWritten<V>(clients: map<Endpoint, V>, ep: Endpoint): (r: map<Endpoint, V>)
  {
    clients - {ep}
  }

  /** Dispose as intended: remove the endpoint only while it still maps to the
      disposing entry; otherwise, including when the key is absent, nothing changes. */
  function Deregister<V(==)>(clients: map<Endpoint, V>, ep: Endpoint, self: V): (r: map<Endpoint, V>)
  {
    if ep in clients && clients[ep] == self then clients - {ep} else clients
  }

  /** Deregistration removes the disposing entry and keeps every other entry
      under its key; repeating it changes nothing more. */
  lemma DeregisterOnlyOwn<V>(clients: map<Endpoint, V>, ep: Endpoint, self: V)
    ensures var r := Deregister(clients, ep, self);
      && (forall e :: e in clients && e != ep ==> e in r && r[e] == clients[e])
      && r.Keys <= clients.Keys
      && (ep in clients && clients[ep] == self ==> ep !in r)
      && (ep in clients && clients[ep] != self ==> r == clients)
      && (ep !in clients ==> r == clients)
      && Deregister(r, ep, self) == r
  {
  }

  /** The defect of the code as written: a stale entry disposed after its peer
      re-registered removes the live successor, whereas Deregister leaves it. With
      the successor gone, the next datagram from that peer is accepted again,
      although the successor session was never closed. */
  lemma StaleDisposeDropsLiveSession<V>(clients: map<Endpoint, V>, queues: map<Endpoint, seq<Bytes>>,
                                           ep: Endpoint, stale: V, b: Bytes)
    requires ep in clients && clients[ep] != stale
    requires queues.Keys == clients.Keys
    ensures ep !in RemoveAsWritten(clients, ep)
    ensures Deregister(clients, ep, stale) == clients
    ensures Route(queues - {ep}, [Datagram(ep, b)]).accepted == Some(ep)
    ensures Route(queues, [Datagram(ep, b)]).accepted == None
  {
    assert [Datagram(ep, b)][1..] == [];
  }
}
