/** The tunnel relay's command line (kdc_relay.py:75-95): a mode and a
    redirect triple select which half of the tunnel runs and with which
    endpoints. */
module KdcRelay {
  import opened Net
  import opened RedirectSpec
  import Text
  import UdpRelay

  datatype Mode = Local | Remote

  /** Which relay runs, and its endpoints. */
  datatype TunnelConfig =
    | Ingress(bind: Endpoint, tunnel: Endpoint)   // local_wrap
    | Egress(bind: Endpoint, dest: Endpoint)      // remote_unwrap

  /** The mode argument is restricted to two choices before anything else is
      looked at (kdc_relay.py:78-79). */
  function ParseMode(s: string): (m: Option<Mode>)
    ensures m == Some(Local) <==> s == "local"
    ensures m == Some(Remote) <==> s == "remote"
  {
    if s == "local" then Some(Local)
    else if s == "remote" then Some(Remote)
    else None
  }

  /** The whole command-line check and dispatch (kdc_relay.py:84-95). The
      ingress binds its datagram socket on the named host at the local port
      and connects to the same host at the remote port; the egress listens on
      127.0.0.1 at the local port and sends to the named host at the remote
      port. The mode is checked first, so an unknown mode is reported as such
      even when the redirect is malformed too. */
  function KdcCommand(mode: string, redirect: string): (r: Result<TunnelConfig, UsageError>)
    ensures r.Success? <==> (mode == "local" || mode == "remote") && ParseRedirect(redirect).Some?
    ensures mode != "local" && mode != "remote" ==> r == Failure(InvalidMode)
    ensures (mode == "local" || mode == "remote") && ParseRedirect(redirect).None? ==>
              r == Failure(MalformedRedirect)
    ensures r.Success? ==> (r.value.Ingress? <==> mode == "local")
  {
    match ParseMode(mode)
    case None => Failure(InvalidMode)
    case Some(m) =>
      match ParseRedirect(redirect)
      case None => Failure(MalformedRedirect)
      case Some(red) =>
        match m
        case Local => Success(Ingress(Endpoint(red.host, red.localPort), Endpoint(red.host, red.remotePort)))
        case Remote => Success(Egress(Endpoint("127.0.0.1", red.localPort), Endpoint(red.host, red.remotePort)))
  }

  /** A well-formed redirect starts the selected relay with the ports it
      spells and the host verbatim. */
  lemma {:induction false} KdcCommandAccepts(s: string, local: string, host: string, remote: string)
    requires WellFormed(s, local, host, remote)
    ensures KdcCommand("local", s) ==
            Success(Ingress(Endpoint(host, Text.DecimalValue(local)), Endpoint(host, Text.DecimalValue(remote))))
    ensures KdcCommand("remote", s) ==
            Success(Egress(Endpoint("127.0.0.1", Text.DecimalValue(local)), Endpoint(host, Text.DecimalValue(remote))))
  {
    ParseWellFormed(s, local, host, remote);
  }

  /** Both programs apply one and the same rule to a redirect argument. */
  lemma {:induction false} SameRedirectRule(s: string)
    ensures KdcCommand("local", s).Success? <==> UdpRelay.UdpCommand([s]).Success?
    ensures KdcCommand("remote", s).Success? <==> UdpRelay.UdpCommand([s]).Success?
  {
  }

  /** A local-port field that is not a digit string stops both programs, in
      either tunnel mode, with a malformed-redirect error before any socket
      is opened. */
  lemma {:induction false} NonNumericLocalPortRefused(s: string)
    requires !Text.IsDigits(Text.Split(s, ':')[0])
    ensures KdcCommand("local", s) == Failure(MalformedRedirect)
    ensures KdcCommand("remote", s) == Failure(MalformedRedirect)
    ensures UdpRelay.UdpCommand([s]) == Failure(MalformedRedirect)
  {
  }
}
