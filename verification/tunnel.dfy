/** The two halves of the tunnel together: what `local_wrap` writes into the
    tunnel is what `remote_unwrap` reads out of it, and the other way round
    (kdc_relay.py:4 draws the path client, local_wrap, tunnel,
    remote_unwrap, server). */
module Tunnel {
  import opened Net
  import LocalWrap
  import RemoteUnwrap

  /** A request of at most 1500 bytes that reaches the far end whole is sent
      to the destination unchanged, once per poll up to the first reply. */
  lemma {:induction false} RequestCrossesTunnel(
    tunnel: Endpoint, ex: LocalWrap.Exchange,
    dest: Endpoint, arrived: nat, polls: seq<RemoteUnwrap.Poll>, k: nat)
    requires |ex.request.payload| <= RecvSize && arrived >= |ex.request.payload|
    requires k < |polls| && polls[k].Ready?
    requires forall i :: 0 <= i < k ==> polls[i] == RemoteUnwrap.TimedOut
    ensures var written := StreamWrites(LocalWrap.Session(tunnel, ex));
            && written == [ex.request.payload]
            && Sends(RemoteUnwrap.Session(dest, RemoteUnwrap.Connection(written[0], arrived), polls)) ==
               RemoteUnwrap.Resends(ex.request.payload, dest, k + 1)
  {
    LocalWrap.SessionOrder(tunnel, ex);
    RemoteUnwrap.SessionRetries(dest, RemoteUnwrap.Connection(ex.request.payload, arrived), polls, k);
  }

  /** The datagram that ends the far end's retry loop is what the requester
      gets back, once the near end has read the connection to its end. */
  lemma {:induction false} ReplyCrossesTunnel(
    tunnel: Endpoint, request: Datagram, arrivals: seq<nat>,
    dest: Endpoint, conn: RemoteUnwrap.Connection, polls: seq<RemoteUnwrap.Poll>, k: nat)
    requires k < |polls| && polls[k].Ready?
    requires forall i :: 0 <= i < k ==> polls[i] == RemoteUnwrap.TimedOut
    requires |arrivals| > |RecvFrom(polls[k].datagram).payload|
    ensures var written := StreamWrites(RemoteUnwrap.Session(dest, conn, polls));
            && written == [RecvFrom(polls[k].datagram).payload]
            && Sends(LocalWrap.Session(tunnel, LocalWrap.Exchange(request, written[0], arrivals))) ==
               [DatagramOut(RecvFrom(polls[k].datagram).payload, request.source)]
  {
    var reply := RecvFrom(polls[k].datagram).payload;
    RemoteUnwrap.SessionRetries(dest, conn, polls, k);
    LocalWrap.SegmentedReplyExact(reply, arrivals);
    LocalWrap.SessionReply(tunnel, LocalWrap.Exchange(request, reply, arrivals));
  }
}
