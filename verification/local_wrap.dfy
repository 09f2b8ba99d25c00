/** Tunnel ingress, `local_wrap` (kdc_relay.py:12-39): each request datagram
    is carried over a fresh stream connection to the tunnel, and whatever the
    tunnel sends back before closing is returned to the requester.

    The environment is an input trace: per request, the datagram as it came
    off the wire, the bytes the tunnel peer writes back before it closes,
    and, per `recv`, how many of those bytes had arrived when the call
    returned. */
module LocalWrap {
  import opened Net

  datatype Exchange = Exchange(request: Datagram, reply: Bytes, arrivals: seq<nat>)

  /** The chunks successive `recv(1500)` calls return on a stream carrying
      `stream`, once the peer has closed its side. */
  function Segment(stream: Bytes, arrivals: seq<nat>): (chunks: seq<Bytes>)
    ensures |chunks| == |arrivals|
    ensures forall i :: 0 <= i < |chunks| ==> |chunks[i]| <= RecvSize
    decreases |arrivals|
  {
    if |arrivals| == 0 then []
    else
      var c := Recv(stream, arrivals[0]);
      [c] + Segment(stream[|c|..], arrivals[1..])
  }

  /** The index of the first empty chunk: the read that reports end of stream. */
  function EofAt(chunks: seq<Bytes>): (k: Option<nat>)
    ensures k.Some? ==> k.value < |chunks| && chunks[k.value] == []
    ensures k.Some? ==> forall i :: 0 <= i < k.value ==> chunks[i] != []
    ensures k.None? ==> forall i :: 0 <= i < |chunks| ==> chunks[i] != []
  {
    if |chunks| == 0 then None
    else if chunks[0] == [] then Some(0)
    else match EofAt(chunks[1..])
      case None => None
      case Some(j) => Some(j + 1)
  }

  /** The reply loop (kdc_relay.py:30-36): chunks are appended to the reply
      until a read returns nothing. `None` means the trace ends while the
      loop is still reading. The loop finishes exactly when some chunk is
      empty, and its reply is then the concatenation of the chunks before
      the first empty one. */
  function Accumulate(chunks: seq<Bytes>): (r: Option<Bytes>)
    ensures r.Some? <==> EofAt(chunks).Some?
    ensures EofAt(chunks).Some? ==> r == Some(Flatten(chunks[..EofAt(chunks).value]))
  {
    if |chunks| == 0 then None
    else if chunks[0] == [] then
      assert chunks[..0] == [];
      Some([])
    else match Accumulate(chunks[1..])
      case None => None
      case Some(rest) =>
        var j := EofAt(chunks[1..]).value;
        assert chunks[..j + 1][1..] == chunks[1..][..j];
        Some(chunks[0] + rest)
  }

  /** However the tunnel's reply is segmented, the loop never returns part of
      it: it returns all of it or is still reading. Given more reads than
      there are reply bytes, it returns all of it. */
  lemma {:induction false} SegmentedReplyExact(stream: Bytes, arrivals: seq<nat>)
    ensures Accumulate(Segment(stream, arrivals)) in {None, Some(stream)}
    ensures |arrivals| > |stream| ==> Accumulate(Segment(stream, arrivals)) == Some(stream)
    decreases |arrivals|
  {
    if |arrivals| > 0 {
      var c := Recv(stream, arrivals[0]);
      var chunks := Segment(stream, arrivals);
      assert chunks[0] == c && chunks[1..] == Segment(stream[|c|..], arrivals[1..]);
      if c != [] {
        SegmentedReplyExact(stream[|c|..], arrivals[1..]);
        assert c + stream[|c|..] == stream;
      }
    }
  }

  /** The reads of a connection, one action per chunk. */
  function Reads(chunks: seq<Bytes>): (log: seq<Action>)
    ensures |log| == |chunks|
    ensures forall i :: 0 <= i < |log| ==> log[i] == StreamIn(chunks[i])
  {
    seq(|chunks|, i requires 0 <= i < |chunks| => StreamIn(chunks[i]))
  }

  /** How many reads the reply loop makes: up to and including the one that
      reports end of stream, or all of them if none does. */
  function ReadCount(chunks: seq<Bytes>): (n: nat)
    ensures n <= |chunks|
  {
    match EofAt(chunks)
    case None => |chunks|
    case Some(k) => k + 1
  }

  /** Connect to the tunnel, write the request payload, then half-close. */
  function Opening(tunnel: Endpoint, d: Datagram): seq<Action>
  {
    [DatagramIn(d), Connect(tunnel), StreamOut(d.payload), HalfClose]
  }

  /** Send the reply back to the requester and close, once there is one. */
  function Closing(d: Datagram, reply: Option<Bytes>): seq<Action>
  {
    match reply
    case None => []
    case Some(r) => [DatagramOut(r, d.source), Close]
  }

  /** Everything the relay does for one request: take the datagram, connect
      to the tunnel, write the payload, half-close, read until end of stream,
      send the reply to the requester, close. */
  function Session(tunnel: Endpoint, ex: Exchange): (log: seq<Action>)
    ensures |log| >= 4
    ensures log[2] == StreamOut(RecvFrom(ex.request).payload) && log[3] == HalfClose
    ensures forall i :: 0 <= i < |log| && log[i].StreamIn? ==> 3 < i && |log[i].chunk| <= RecvSize
    ensures Completes(ex) <==> log[|log| - 1] == Close
  {
    var d := RecvFrom(ex.request);
    var chunks := Segment(ex.reply, ex.arrivals);
    Opening(tunnel, d) + Reads(chunks[..ReadCount(chunks)]) + Closing(d, Accumulate(chunks))
  }

  /** The session reaches its reply within the trace. */
  predicate Completes(ex: Exchange)
  {
    Accumulate(Segment(ex.reply, ex.arrivals)).Some?
  }

  lemma {:induction false} ReadsWriteNothing(chunks: seq<Bytes>)
    ensures Sends(Reads(chunks)) == []
    ensures StreamWrites(Reads(chunks)) == []
  {
  }

  /** One session opens with the datagram read and the connect, and the
      request payload is the only thing it ever writes to the tunnel. */
  lemma {:induction false} SessionOrder(tunnel: Endpoint, ex: Exchange)
    ensures var log := Session(tunnel, ex);
            && log[0] == DatagramIn(RecvFrom(ex.request))
            && log[1] == Connect(tunnel)
            && StreamWrites(log) == [RecvFrom(ex.request).payload]
  {
    var d := RecvFrom(ex.request);
    var chunks := Segment(ex.reply, ex.arrivals);
    var opening := Opening(tunnel, d);
    var readLog := Reads(chunks[..ReadCount(chunks)]);
    var closing := Closing(d, Accumulate(chunks));
    assert StreamWrites(opening) == [d.payload] by {
      assert opening[1..][1..][1..][1..] == [];
      assert StreamWrites(opening[1..][1..][1..]) == [];
      assert StreamWrites(opening[1..][1..]) == [d.payload];
    }
    assert StreamWrites(closing) == [] by {
      if |closing| > 0 { assert closing[1..][1..] == []; }
    }
    ReadsWriteNothing(chunks[..ReadCount(chunks)]);
    StreamWritesAppend(opening, readLog);
    StreamWritesAppend(opening + readLog, closing);
  }

  /** A completed session sends exactly one datagram, holding the tunnel's
      whole reply, to the requester, and ends by closing the connection; an
      unfinished one has sent nothing back. */
  lemma {:induction false} SessionReply(tunnel: Endpoint, ex: Exchange)
    ensures var log := Session(tunnel, ex);
            && (Completes(ex) ==>
                  Sends(log) == [DatagramOut(ex.reply, ex.request.source)] && log[|log| - 1] == Close)
            && (!Completes(ex) ==> Sends(log) == [])
  {
    var d := RecvFrom(ex.request);
    var chunks := Segment(ex.reply, ex.arrivals);
    var opening := Opening(tunnel, d);
    var readLog := Reads(chunks[..ReadCount(chunks)]);
    var closing := Closing(d, Accumulate(chunks));
    SegmentedReplyExact(ex.reply, ex.arrivals);
    assert Sends(opening) == [] by {
      assert opening[1..][1..][1..][1..] == [];
    }
    assert Sends(closing) == (if Completes(ex) then [DatagramOut(ex.reply, d.source)] else []) by {
      if |closing| > 0 { assert closing[1..][1..] == []; }
    }
    ReadsWriteNothing(chunks[..ReadCount(chunks)]);
    SendsAppend(opening, readLog);
    SendsAppend(opening + readLog, closing);
  }

  /** The serving loop over a trace of requests. A session that has not
      reached end of stream blocks the loop, so it is the last one. */
  function Serve(tunnel: Endpoint, exchanges: seq<Exchange>): (log: seq<Action>)
    ensures log == [] <==> exchanges == []
    ensures forall i :: 0 <= i < |log| && log[i].StreamIn? ==> |log[i].chunk| <= RecvSize
  {
    if |exchanges| == 0 then []
    else if !Completes(exchanges[0]) then Session(tunnel, exchanges[0])
    else Session(tunnel, exchanges[0]) + Serve(tunnel, exchanges[1..])
  }

  /** When every session completes, each request is answered exactly once,
      in arrival order, to its own sender, with the tunnel's whole reply. */
  lemma {:induction false} ServeAnswersEachRequest(tunnel: Endpoint, exchanges: seq<Exchange>)
    requires forall i :: 0 <= i < |exchanges| ==> Completes(exchanges[i])
    ensures Sends(Serve(tunnel, exchanges)) ==
            seq(|exchanges|, i requires 0 <= i < |exchanges| =>
                DatagramOut(exchanges[i].reply, exchanges[i].request.source))
  {
    if |exchanges| > 0 {
      SessionReply(tunnel, exchanges[0]);
      ServeAnswersEachRequest(tunnel, exchanges[1..]);
      SendsAppend(Session(tunnel, exchanges[0]), Serve(tunnel, exchanges[1..]));
    }
  }

  /** A tunnel that closes without sending anything still yields a reply:
      an empty datagram back to the requester. */
  lemma {:induction false} EmptyReplyStillSent(tunnel: Endpoint, request: Datagram, arrivals: seq<nat>)
    requires |arrivals| > 0
    ensures Sends(Session(tunnel, Exchange(request, [], arrivals))) == [DatagramOut([], request.source)]
  {
    SessionReply(tunnel, Exchange(request, [], arrivals));
    SegmentedReplyExact([], arrivals);
  }
}
