/** Tunnel egress, `remote_unwrap` (kdc_relay.py:42-72): each stream
    connection from the tunnel carries one request, which is sent as a
    datagram to the fixed destination, re-sent after every one-second
    timeout, until a datagram arrives; that datagram is written back on the
    connection, which is then closed.

    The environment is an input trace: per connection, the request bytes and
    how many had arrived when the one `recv` returned; and one trace of
    `select` outcomes on the single outbound datagram socket, which all
    connections share in turn. */
module RemoteUnwrap {
  import opened Net

  /** What one `select` with a one-second timeout reports: nothing, or a
      datagram ready to be read (as it came off the wire). */
  datatype Poll = TimedOut | Ready(datagram: Datagram)

  datatype Connection = Connection(request: Bytes, arrived: nat)

  /** The position of the first poll that finds a datagram. */
  function FirstReady(polls: seq<Poll>): (k: Option<nat>)
    ensures k.Some? ==> k.value < |polls| && polls[k.value].Ready?
    ensures k.Some? ==> forall i :: 0 <= i < k.value ==> polls[i] == TimedOut
    ensures k.None? ==> forall i :: 0 <= i < |polls| ==> polls[i] == TimedOut
  {
    if |polls| == 0 then None
    else if polls[0].Ready? then Some(0)
    else match FirstReady(polls[1..])
      case None => None
      case Some(j) => Some(j + 1)
  }

  /** `n` identical sends of `data` to `dest`. */
  function Resends(data: Bytes, dest: Endpoint, n: nat): (log: seq<Action>)
    ensures |log| == n
    ensures forall i :: 0 <= i < n ==> log[i] == DatagramOut(data, dest)
  {
    seq(n, i => DatagramOut(data, dest))
  }

  /** The retry loop (kdc_relay.py:61-69): send, wait, and on a timeout go
      round again; once a datagram is ready, read it and leave the loop. */
  function RetryLoop(data: Bytes, dest: Endpoint, polls: seq<Poll>): (log: seq<Action>)
    ensures forall i :: 0 <= i < |log| ==> log[i].DatagramOut? || log[i].DatagramIn?
    ensures forall i :: 0 <= i < |log| && log[i].DatagramOut? ==> log[i] == DatagramOut(data, dest)
    ensures forall i :: 0 <= i < |log| && log[i].DatagramIn? ==>
              i == |log| - 1 && |log[i].datagram.payload| <= RecvSize
  {
    if |polls| == 0 then []
    else match polls[0]
      case TimedOut => [DatagramOut(data, dest)] + RetryLoop(data, dest, polls[1..])
      case Ready(w) => [DatagramOut(data, dest), DatagramIn(RecvFrom(w))]
  }

  /** The datagram the loop leaves with, as read by `recvfrom(1500)`. */
  function Reply(polls: seq<Poll>): (r: Option<Bytes>)
    ensures r.Some? <==> FirstReady(polls).Some?
    ensures r.Some? ==> |r.value| <= RecvSize
  {
    match FirstReady(polls)
    case None => None
    case Some(k) => Some(RecvFrom(polls[k].datagram).payload)
  }

  /** Everything the relay does for one connection: accept, read the request
      once, run the retry loop, then write the reply and close. */
  function Session(dest: Endpoint, conn: Connection, polls: seq<Poll>): (log: seq<Action>)
    ensures |log| >= 2 && log[0] == Accept && log[1] == StreamIn(Recv(conn.request, conn.arrived))
    ensures forall i :: 0 <= i < |log| && log[i].DatagramOut? ==> log[i] == DatagramOut(log[1].chunk, dest)
    ensures log[|log| - 1] == Close <==> FirstReady(polls).Some?
  {
    var data := Recv(conn.request, conn.arrived);
    [Accept, StreamIn(data)] + RetryLoop(data, dest, polls) +
    match Reply(polls)
    case None => []
    case Some(reply) => [StreamOut(reply), Close]
  }

  /** With `k` timeouts before the first ready poll, the loop sends exactly
      `k + 1` times and then reads one datagram. */
  lemma {:induction false} RetryLoopShape(data: Bytes, dest: Endpoint, polls: seq<Poll>)
    ensures match FirstReady(polls)
            case None =>
              RetryLoop(data, dest, polls) == Resends(data, dest, |polls|)
            case Some(k) =>
              RetryLoop(data, dest, polls) ==
              Resends(data, dest, k + 1) + [DatagramIn(RecvFrom(polls[k].datagram))]
  {
    if |polls| > 0 && polls[0] == TimedOut {
      RetryLoopShape(data, dest, polls[1..]);
      match FirstReady(polls[1..])
      case None =>
        assert Resends(data, dest, |polls|) == [DatagramOut(data, dest)] + Resends(data, dest, |polls| - 1);
      case Some(j) =>
        assert Resends(data, dest, j + 2) == [DatagramOut(data, dest)] + Resends(data, dest, j + 1);
    }
  }

  lemma {:induction false} ResendsOnlySend(data: Bytes, dest: Endpoint, n: nat)
    ensures Sends(Resends(data, dest, n)) == Resends(data, dest, n)
    ensures StreamWrites(Resends(data, dest, n)) == []
  {
    if n > 0 {
      assert Resends(data, dest, n)[1..] == Resends(data, dest, n - 1);
      ResendsOnlySend(data, dest, n - 1);
    }
  }

  /** One connection whose `k`-th poll is the first to find a datagram: the
      request is sent exactly `k + 1` times, always the same bytes to the same
      destination; exactly one thing is written back, the datagram that
      ended the loop; and the connection is then closed. */
  lemma {:induction false} SessionRetries(dest: Endpoint, conn: Connection, polls: seq<Poll>, k: nat)
    requires k < |polls| && polls[k].Ready?
    requires forall i :: 0 <= i < k ==> polls[i] == TimedOut
    ensures var log := Session(dest, conn, polls);
            && Sends(log) == Resends(Recv(conn.request, conn.arrived), dest, k + 1)
            && StreamWrites(log) == [RecvFrom(polls[k].datagram).payload]
            && log[|log| - 1] == Close
  {
    var data := Recv(conn.request, conn.arrived);
    assert FirstReady(polls) == Some(k);
    var reply := RecvFrom(polls[k].datagram).payload;
    var head := [Accept, StreamIn(data)];
    var resends := Resends(data, dest, k + 1);
    var tail := [DatagramIn(RecvFrom(polls[k].datagram)), StreamOut(reply), Close];
    RetryLoopShape(data, dest, polls);
    assert Session(dest, conn, polls) == head + resends + tail;
    ResendsOnlySend(data, dest, k + 1);
    assert Sends(head) == [] && StreamWrites(head) == [] by {
      assert head[1..][1..] == [];
    }
    assert Sends(tail) == [] && StreamWrites(tail) == [reply] by {
      assert tail[1..][1..][1..] == [];
      assert StreamWrites(tail[1..][1..]) == [];
    }
    SendsAppend(head, resends);
    SendsAppend(head + resends, tail);
    StreamWritesAppend(head, resends);
    StreamWritesAppend(head + resends, tail);
  }

  /** A connection whose polls all time out keeps re-sending the same request
      once per poll and writes nothing back. */
  lemma {:induction false} SessionStillRetrying(dest: Endpoint, conn: Connection, polls: seq<Poll>)
    requires forall i :: 0 <= i < |polls| ==> polls[i] == TimedOut
    ensures var log := Session(dest, conn, polls);
            && Sends(log) == Resends(Recv(conn.request, conn.arrived), dest, |polls|)
            && StreamWrites(log) == []
  {
    var data := Recv(conn.request, conn.arrived);
    var head := [Accept, StreamIn(data)];
    RetryLoopShape(data, dest, polls);
    ResendsOnlySend(data, dest, |polls|);
    assert Session(dest, conn, polls) == head + Resends(data, dest, |polls|);
    assert Sends(head) == [] && StreamWrites(head) == [] by {
      assert head[1..][1..] == [];
    }
    SendsAppend(head, Resends(data, dest, |polls|));
    StreamWritesAppend(head, Resends(data, dest, |polls|));
  }

  /** The datagram read to end a retry loop is not checked against the
      destination: a reply from any source is written back just the same. */
  lemma {:induction false} ReplySourceIgnored(dest: Endpoint, conn: Connection, polls: seq<Poll>, k: nat, other: Endpoint)
    requires k < |polls| && polls[k].Ready?
    requires forall i :: 0 <= i < k ==> polls[i] == TimedOut
    ensures var forged := polls[k := Ready(Datagram(polls[k].datagram.payload, other))];
            StreamWrites(Session(dest, conn, forged)) == StreamWrites(Session(dest, conn, polls))
  {
    var forged := polls[k := Ready(Datagram(polls[k].datagram.payload, other))];
    SessionRetries(dest, conn, polls, k);
    SessionRetries(dest, conn, forged, k);
  }

  /** The serving loop: connections are handled one after another, each
      consuming the polls up to and including the one that ends its retry
      loop. A connection still retrying at the end of the trace is the last. */
  function Serve(dest: Endpoint, conns: seq<Connection>, polls: seq<Poll>): (log: seq<Action>)
    ensures log == [] <==> conns == []
    ensures forall i :: 0 <= i < |log| && log[i].DatagramOut? ==> log[i].dest == dest
    decreases |conns|
  {
    if |conns| == 0 then []
    else match FirstReady(polls)
      case None => Session(dest, conns[0], polls)
      case Some(k) => Session(dest, conns[0], polls) + Serve(dest, conns[1..], polls[k + 1..])
  }

  /** The payloads of the ready datagrams in a poll trace, in order. */
  function ReadyPayloads(polls: seq<Poll>): seq<Bytes>
  {
    if |polls| == 0 then []
    else match polls[0]
      case TimedOut => ReadyPayloads(polls[1..])
      case Ready(w) => [RecvFrom(w).payload] + ReadyPayloads(polls[1..])
  }

  lemma {:induction false} ReadyPayloadsAt(polls: seq<Poll>)
    ensures match FirstReady(polls)
            case None => ReadyPayloads(polls) == []
            case Some(k) =>
              ReadyPayloads(polls) == [RecvFrom(polls[k].datagram).payload] + ReadyPayloads(polls[k + 1..])
  {
    if |polls| > 0 && polls[0] == TimedOut {
      ReadyPayloadsAt(polls[1..]);
      match FirstReady(polls[1..])
      case None =>
      case Some(j) => assert polls[1..][j + 1..] == polls[j + 2..];
    }
  }

  /** Over the whole trace, the i-th connection is answered with the i-th
      datagram the outbound socket received, whichever request that datagram
      actually answers: the replies written are exactly the received
      datagrams, in order, one per connection. */
  lemma {:induction false} ServeRepliesInOrder(dest: Endpoint, conns: seq<Connection>, polls: seq<Poll>)
    ensures var replies := ReadyPayloads(polls);
            StreamWrites(Serve(dest, conns, polls)) == replies[..Min(|conns|, |replies|)]
    decreases |conns|
  {
    var replies := ReadyPayloads(polls);
    ReadyPayloadsAt(polls);
    if |conns| > 0 {
      match FirstReady(polls)
      case None =>
        SessionStillRetrying(dest, conns[0], polls);
      case Some(k) =>
        SessionRetries(dest, conns[0], polls, k);
        ServeRepliesInOrder(dest, conns[1..], polls[k + 1..]);
        StreamWritesAppend(Session(dest, conns[0], polls), Serve(dest, conns[1..], polls[k + 1..]));
        var rest := ReadyPayloads(polls[k + 1..]);
        assert replies[..Min(|conns|, |replies|)] == replies[..1] + rest[..Min(|conns| - 1, |rest|)];
    }
  }
}
