/** The endpoint-learning datagram relay (udp_relay.py). One socket serves
    both peers: the server is fixed by the command line, the client is the
    source of the first datagram ever received, and every datagram goes to
    the server when it comes from the client and to the client otherwise.

    The environment is the trace of datagrams the socket receives, as they
    came off the wire. */
module UdpRelay {
  import opened Net
  import opened RedirectSpec

  datatype RelayState = RelayState(knownClient: Option<Endpoint>, knownServer: Endpoint)

  /** The relay's settings: where it listens and who the server is. */
  datatype Config = Config(bind: Endpoint, server: Endpoint)

  /** Before any datagram: no client yet (udp_relay.py:16-17), so whatever
      arrives first is learned as the client. */
  function Start(server: Endpoint): (st: RelayState)
    ensures st.knownServer == server
    ensures forall source :: Learn(st, source).knownClient == Some(source)
  {
    RelayState(None, server)
  }

  /** The client is set from the first source seen and never again
      (udp_relay.py:21-22); the server is never touched. */
  function Learn(st: RelayState, source: Endpoint): (st': RelayState)
    ensures st'.knownServer == st.knownServer
    ensures st'.knownClient.Some?
    ensures st.knownClient.Some? ==> st' == st
    ensures st.knownClient.None? ==> st'.knownClient == Some(source)
  {
    if st.knownClient.None? then st.(knownClient := Some(source)) else st
  }

  /** Where a datagram from `source` goes once a client is known
      (udp_relay.py:23-26): to the server if it came from the client, to the
      client otherwise, whether it came from the server or from anyone else. */
  function Destination(st: RelayState, source: Endpoint): (d: Endpoint)
    requires st.knownClient.Some?
    ensures d == st.knownServer || d == st.knownClient.value
    ensures d == st.knownServer <==> source == st.knownClient.value || st.knownClient.value == st.knownServer
    ensures d == source ==> source == st.knownServer
  {
    if source == st.knownClient.value then st.knownServer else st.knownClient.value
  }

  /** One turn of the receive loop (udp_relay.py:20-26): exactly one
      datagram goes out, carrying what was read, to one of the two roles,
      and never straight back to its sender unless that sender is the
      server. */
  function Step(st: RelayState, wire: Datagram): (r: (RelayState, Action))
    ensures r.0.knownServer == st.knownServer && r.0.knownClient.Some?
    ensures r.1.DatagramOut? && r.1.payload <= wire.payload && |r.1.payload| <= RecvSize
    ensures r.1.dest == st.knownServer || r.1.dest == r.0.knownClient.value
    ensures r.1.dest == wire.source ==> wire.source == st.knownServer
  {
    var d := RecvFrom(wire);
    var st' := Learn(st, d.source);
    (st', DatagramOut(d.payload, Destination(st', d.source)))
  }

  /** The receive loop over a finite trace: the final state and every
      datagram sent, in order. */
  function Run(st: RelayState, trace: seq<Datagram>): (r: (RelayState, seq<Action>))
    ensures |r.1| == |trace|
    ensures forall i :: 0 <= i < |r.1| ==> r.1[i].DatagramOut?
    decreases |trace|
  {
    if |trace| == 0 then (st, [])
    else
      var (st1, out) := Step(st, trace[0]);
      var (last, outs) := Run(st1, trace[1..]);
      (last, [out] + outs)
  }

  /** Once a client is known the state never changes, and every datagram is
      forwarded exactly once, payload intact (up to the 1500-byte read), to
      the destination `Destination` names for the learned client. */
  lemma {:induction false} RunLearned(st: RelayState, trace: seq<Datagram>)
    requires st.knownClient.Some?
    ensures var (last, outs) := Run(st, trace);
            && last == st
            && |outs| == |trace|
            && forall i :: 0 <= i < |trace| ==>
                 outs[i] == DatagramOut(RecvFrom(trace[i]).payload,
                                        Destination(st, trace[i].source))
  {
    if |trace| > 0 {
      RunLearned(st, trace[1..]);
      var (last, outs) := Run(st, trace);
      var (_, rest) := Run(st, trace[1..]);
      assert outs == [outs[0]] + rest;
      forall i | 1 <= i < |trace|
        ensures outs[i] == DatagramOut(RecvFrom(trace[i]).payload,
                                       Destination(st, trace[i].source))
      {
        assert outs[i] == rest[i - 1] && trace[i] == trace[1..][i - 1];
      }
    }
  }

  /** From the start state, the first datagram's source becomes the client for
      good, the server never changes, and every datagram is forwarded exactly
      once, payload intact, to the server if it came from that first source
      and to that first source otherwise. */
  lemma {:induction false} RunFromStart(server: Endpoint, trace: seq<Datagram>)
    requires |trace| > 0
    ensures var (last, outs) := Run(Start(server), trace);
            && last == RelayState(Some(trace[0].source), server)
            && |outs| == |trace|
            && forall i :: 0 <= i < |trace| ==>
                 outs[i] == DatagramOut(RecvFrom(trace[i]).payload,
                                        Destination(RelayState(Some(trace[0].source), server), trace[i].source))
  {
    var learned := RelayState(Some(trace[0].source), server);
    var (st1, out) := Step(Start(server), trace[0]);
    assert st1 == learned;
    RunLearned(learned, trace[1..]);
    var (last, outs) := Run(Start(server), trace);
    var (_, rest) := Run(learned, trace[1..]);
    assert outs == [out] + rest;
    forall i | 1 <= i < |trace|
      ensures outs[i] == DatagramOut(RecvFrom(trace[i]).payload, Destination(RelayState(Some(trace[0].source), server), trace[i].source))
    {
      assert outs[i] == rest[i - 1] && trace[i] == trace[1..][i - 1];
    }
  }

  /** If the server speaks first, it is taken for the client, and from then on
      every datagram, whoever sends it, goes back to the server. */
  lemma {:induction false} ServerFirstLoopsBack(server: Endpoint, trace: seq<Datagram>)
    requires |trace| > 0 && trace[0].source == server
    ensures Run(Start(server), trace).0.knownClient == Some(server)
    ensures forall i :: 0 <= i < |trace| ==>
              Run(Start(server), trace).1[i] == DatagramOut(RecvFrom(trace[i]).payload, server)
  {
    RunFromStart(server, trace);
  }

  /** A second client is not learned: after client `a` has spoken, a datagram
      from `b` is sent to `a`, and the server's later answer still goes to
      `a`. */
  lemma {:induction false} SecondClientNotLearned(server: Endpoint, a: Endpoint, b: Endpoint, p: Bytes, q: Bytes, r: Bytes)
    requires a != server && b != server && a != b
    ensures Run(Start(server), [Datagram(p, a), Datagram(q, b), Datagram(r, server)]).1 ==
            [DatagramOut(RecvFrom(Datagram(p, a)).payload, server),
             DatagramOut(RecvFrom(Datagram(q, b)).payload, a),
             DatagramOut(RecvFrom(Datagram(r, server)).payload, a)]
  {
    var trace := [Datagram(p, a), Datagram(q, b), Datagram(r, server)];
    RunFromStart(server, trace);
    assert Destination(RelayState(Some(a), server), b) == a;
  }

  /** The command line (udp_relay.py:31-40): exactly one argument, which must
      be a valid redirect; the relay listens on every interface at the local
      port and treats the named host and remote port as the server. */
  function UdpCommand(args: seq<string>): (r: Result<Config, UsageError>)
    ensures r.Success? <==> |args| == 1 && ParseRedirect(args[0]).Some?
    ensures |args| != 1 ==> r == Failure(WrongArgumentCount)
    ensures |args| == 1 && ParseRedirect(args[0]).None? ==> r == Failure(MalformedRedirect)
  {
    if |args| != 1 then Failure(WrongArgumentCount)
    else match ParseRedirect(args[0])
      case None => Failure(MalformedRedirect)
      case Some(red) => Success(Config(Endpoint("0.0.0.0", red.localPort), Endpoint(red.host, red.remotePort)))
  }

  /** A well-formed single argument starts the relay with the ports it spells
      and the host verbatim. */
  lemma {:induction false} UdpCommandAccepts(s: string, local: string, host: string, remote: string)
    requires WellFormed(s, local, host, remote)
    ensures UdpCommand([s]) ==
            Success(Config(Endpoint("0.0.0.0", Text.DecimalValue(local)),
                           Endpoint(host, Text.DecimalValue(remote))))
  {
    ParseWellFormed(s, local, host, remote);
  }
}
