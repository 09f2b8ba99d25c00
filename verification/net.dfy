/** Shared vocabulary of the relays: bytes, endpoints, datagrams, the socket
    actions a relay performs, and the two kinds of bounded read the relays
    make (a datagram `recvfrom(1500)` and a stream `recv(1500)`). */
module Net {

  newtype byte = x: int | 0 <= x < 256

  type Bytes = seq<byte>

  datatype Option<+T> = None | Some(value: T)

  datatype Result<+T, +E> = Success(value: T) | Failure(error: E)

  /** A (host, port) pair. Host names are not resolved: two endpoints are the
      same peer exactly when they are equal as values. */
  datatype Endpoint = Endpoint(host: string, port: int)

  /** A datagram as it travels on the wire: a payload and its source. */
  datatype Datagram = Datagram(payload: Bytes, source: Endpoint)

  /** One observable socket operation of a relay, in program order. */
  datatype Action =
    | DatagramIn(datagram: Datagram)            // recvfrom on a datagram socket
    | DatagramOut(payload: Bytes, dest: Endpoint) // sendto on a datagram socket
    | Connect(peer: Endpoint)                   // a new outbound stream connection
    | Accept                                    // a new inbound stream connection
    | StreamIn(chunk: Bytes)                    // recv on a stream connection
    | StreamOut(data: Bytes)                    // send on a stream connection
    | HalfClose                                 // shutdown(SHUT_WR)
    | Close                                     // close of the stream connection

  /** The buffer size every read of both relays asks for. */
  const RecvSize: nat := 1500

  function Min(a: int, b: int): int { if a <= b then a else b }

  function Max(a: int, b: int): int { if a <= b then b else a }

  /** `recvfrom(RecvSize)`: a datagram longer than the buffer is truncated to
      the buffer and the excess is discarded. */
  function RecvFrom(wire: Datagram): (d: Datagram)
    ensures |d.payload| <= RecvSize
    ensures d.source == wire.source
    ensures d.payload <= wire.payload
    ensures |wire.payload| <= RecvSize ==> d == wire
    ensures |wire.payload| > RecvSize ==> |d.payload| == RecvSize
  {
    Datagram(wire.payload[..Min(|wire.payload|, RecvSize)], wire.source)
  }

  /** `recv(RecvSize)` on a stream whose unread bytes are `pending`, when
      `arrived` bytes had reached the receive buffer as the call returned.
      A blocking read returns at least one byte while any remain, and the
      empty sequence only once the peer has closed and nothing is left. */
  function Recv(pending: Bytes, arrived: nat): (chunk: Bytes)
    ensures |chunk| <= RecvSize
    ensures chunk <= pending
    ensures chunk == [] <==> pending == []
    ensures arrived >= |pending| && |pending| <= RecvSize ==> chunk == pending
  {
    pending[..Min(|pending|, Min(RecvSize, Max(arrived, 1)))]
  }

  /** Concatenation of a sequence of chunks, in order. */
  function Flatten(chunks: seq<Bytes>): Bytes
  {
    if |chunks| == 0 then [] else chunks[0] + Flatten(chunks[1..])
  }

  /** The datagrams sent, in order, by a log of actions. */
  function Sends(log: seq<Action>): (out: seq<Action>)
    ensures |out| <= |log|
    ensures forall i :: 0 <= i < |out| ==> out[i].DatagramOut?
    ensures (forall i :: 0 <= i < |log| ==> !log[i].DatagramOut?) ==> out == []
  {
    if |log| == 0 then []
    else if log[0].DatagramOut? then [log[0]] + Sends(log[1..])
    else Sends(log[1..])
  }

  /** The data written, in order, to stream connections by a log of actions. */
  function StreamWrites(log: seq<Action>): (out: seq<Bytes>)
    ensures |out| <= |log|
    ensures (forall i :: 0 <= i < |log| ==> !log[i].StreamOut?) ==> out == []
  {
    if |log| == 0 then []
    else if log[0].StreamOut? then [log[0].data] + StreamWrites(log[1..])
    else StreamWrites(log[1..])
  }

  lemma {:induction false} SendsAppend(a: seq<Action>, b: seq<Action>)
    ensures Sends(a + b) == Sends(a) + Sends(b)
  {
    if |a| == 0 {
      assert a + b == b;
    } else {
      assert (a + b)[1..] == a[1..] + b;
      SendsAppend(a[1..], b);
    }
  }

  lemma {:induction false} StreamWritesAppend(a: seq<Action>, b: seq<Action>)
    ensures StreamWrites(a + b) == StreamWrites(a) + StreamWrites(b)
  {
    if |a| == 0 {
      assert a + b == b;
    } else {
      assert (a + b)[1..] == a[1..] + b;
      StreamWritesAppend(a[1..], b);
    }
  }
}
