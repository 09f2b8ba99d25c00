/** The `LOCAL-PORT:HOSTNAME:REMOTE-PORT` argument both relays take
    (kdc_relay.py:84-92, udp_relay.py:35-40). */
module RedirectSpec {
  import opened Net
  import opened Text

  /** A validated redirect triple. The host is kept verbatim: it may be empty
      and it is never resolved here. */
  datatype Redirect = Redirect(localPort: nat, host: string, remotePort: nat)

  /** Why a command line is refused; every refusal ends the program before
      any socket is opened. */
  datatype UsageError = WrongArgumentCount | InvalidMode | MalformedRedirect

  /** The shape the check accepts: a digit string, a colon, a colon-free
      host, a colon, a digit string. */
  predicate WellFormed(s: string, local: string, host: string, remote: string)
  {
    && IsDigits(local) && IsDigits(remote) && ':' !in host
    && s == local + ":" + host + ":" + remote
  }

  /** Splits on ':' and accepts exactly three fields whose first and third are
      non-empty digit strings; the ports are their decimal values. */
  function ParseRedirect(s: string): (r: Option<Redirect>)
    ensures r.Some? ==> ':' !in r.value.host
  {
    var fields := Split(s, ':');
    if |fields| != 3 || !IsDigits(fields[0]) || !IsDigits(fields[2]) then None
    else Some(Redirect(DecimalValue(fields[0]), fields[1], DecimalValue(fields[2])))
  }

  /** Renders a redirect in its canonical form. */
  function FormatRedirect(r: Redirect): string
  {
    ShowDecimal(r.localPort) + ":" + r.host + ":" + ShowDecimal(r.remotePort)
  }

  lemma {:induction false} JoinThree(a: string, b: string, c: string, sep: char)
    ensures Join([a, b, c], sep) == a + [sep] + b + [sep] + c
  {
    assert [a, b, c][1..] == [b, c];
    assert [b, c][1..] == [c];
    assert Join([b, c], sep) == b + [sep] + c;
    assert Join([a, b, c], sep) == a + [sep] + Join([b, c], sep);
  }

  /** Every string of the accepted shape is accepted, with the ports its
      digit fields spell and the host field taken verbatim. */
  lemma {:induction false} ParseWellFormed(s: string, local: string, host: string, remote: string)
    requires WellFormed(s, local, host, remote)
    ensures ParseRedirect(s) == Some(Redirect(DecimalValue(local), host, DecimalValue(remote)))
  {
    var fields := [local, host, remote];
    assert forall i :: 0 <= i < 3 ==> ':' !in fields[i] by {
      assert forall i :: 0 <= i < |local| ==> local[i] != ':';
      assert forall i :: 0 <= i < |remote| ==> remote[i] != ':';
    }
    JoinThree(local, host, remote, ':');
    SplitJoin(fields, ':');
  }

  /** Every accepted string has the accepted shape, and the result is read
      off from its fields. */
  lemma {:induction false} ParseAcceptedWellFormed(s: string)
    requires ParseRedirect(s).Some?
    ensures var r := ParseRedirect(s).value;
            exists local, remote ::
              && WellFormed(s, local, r.host, remote)
              && r.localPort == DecimalValue(local)
              && r.remotePort == DecimalValue(remote)
  {
    var fields := Split(s, ':');
    assert fields == [fields[0], fields[1], fields[2]];
    JoinThree(fields[0], fields[1], fields[2], ':');
    assert WellFormed(s, fields[0], fields[1], fields[2]);
  }

  /** Acceptance in both directions: a string is accepted exactly when it
      has the three-field digit:host:digit shape. */
  lemma {:induction false} ParseAcceptsIff(s: string)
    ensures ParseRedirect(s).Some? <==>
            exists local, host, remote :: WellFormed(s, local, host, remote)
  {
    if ParseRedirect(s).Some? {
      ParseAcceptedWellFormed(s);
    } else if exists local, host, remote :: WellFormed(s, local, host, remote) {
      var local, host, remote :| WellFormed(s, local, host, remote);
      ParseWellFormed(s, local, host, remote);
    }
  }

  /** The canonical rendering of any redirect whose host has no colon parses
      back to that redirect. */
  lemma {:induction false} ParseFormat(r: Redirect)
    requires ':' !in r.host
    ensures ParseRedirect(FormatRedirect(r)) == Some(r)
  {
    var local, remote := ShowDecimal(r.localPort), ShowDecimal(r.remotePort);
    ParseWellFormed(FormatRedirect(r), local, r.host, remote);
    DecimalValueShow(r.localPort);
    DecimalValueShow(r.remotePort);
  }

  /** A non-numeric local port is refused. */
  lemma {:induction false} RejectsNonNumericPort()
    ensures ParseRedirect("abc:host:123") == None
  {
  }

  /** A fourth field is refused, even when every field is numeric. */
  lemma {:induction false} RejectsFourFields()
    ensures ParseRedirect("1:2:3:4") == None
  {
  }

  /** The host field may be empty; leading zeros in a port are accepted. */
  lemma {:induction false} AcceptsEmptyHost()
    ensures ParseRedirect("088::88") == Some(Redirect(88, "", 88))
  {
    ParseWellFormed("088::88", "088", "", "88");
  }
}
