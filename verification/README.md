# kdc_relay in Dafny

A model of the two relay scripts of `kdc_relay` and proofs about it.

- `kdc_relay.py` tunnels Kerberos KDC datagrams over a stream connection.
  - `local_wrap` (tunnel ingress) takes each request datagram.
    It opens a fresh stream connection to the tunnel and writes the request.
    It half-closes the connection and reads until end of stream.
    It then returns what it read to the requester.
  - `remote_unwrap` (tunnel egress) accepts each tunnel connection and reads one request.
    It sends the request as a datagram to the fixed destination.
    It re-sends after every one-second timeout until a datagram comes back.
    It writes that datagram back on the connection and closes the connection.
  - The command line takes a mode (`local` or `remote`) and a redirect `LOCAL-PORT:HOSTNAME:REMOTE-PORT`.
- `udp_relay.py` relays datagrams between one client and one server through a single socket.
  - The server is fixed by the command line.
  - The client is the source of the first datagram ever received.
  - A datagram from the client goes to the server. Every other datagram goes to the client.

There is no I/O in the model. Each relay is a pure function over a finite trace of what its sockets report.
Its output is the ordered log of socket actions it takes (`Net.Action`).

- A datagram read is `recvfrom(1500)`. It truncates a longer datagram to 1500 bytes (`Net.RecvFrom`).
- A stream read is `recv(1500)`. The trace gives the peer's whole byte stream plus, per call, how many bytes had arrived.
  The call returns at most 1500 bytes. It returns at least one byte while any remain, and nothing once the stream has ended (`Net.Recv`).
- A `select` with its one-second timeout is one `TimedOut` or `Ready(datagram)` event (`RemoteUnwrap.Poll`).

Modules, one per part of the program:

| file | module | models |
|---|---|---|
| net.dfy | `Net` | bytes, endpoints, datagrams, socket actions, the two bounded reads |
| text.dfy | `Text` | `str.split(':')`, `str.isdigit`, `int(...)` |
| redirect.dfy | `RedirectSpec` | the redirect-triple check both scripts share |
| kdc_relay.dfy | `KdcRelay` | mode check and dispatch of `kdc_relay.py` |
| local_wrap.dfy | `LocalWrap` | `local_wrap` |
| remote_unwrap.dfy | `RemoteUnwrap` | `remote_unwrap` |
| tunnel.dfy | `Tunnel` | the two halves of the tunnel composed |
| udp_relay.dfy | `UdpRelay` | the learning relay and its command line |

### Behaviour of the code worth knowing

- **Learning relay policy.** The relay captures the first source once and never re-learns the client.
  Each later source is compared with that captured client, not with the server.
  - A second client is therefore never learned. Its datagrams, and the server's later answers, go to the first client (`UdpRelay.SecondClientNotLearned`).
  - A server that speaks first becomes the "client". Every later datagram then goes back to the server (`UdpRelay.ServerFirstLoopsBack`).
  - No datagram is ever dropped: once the first datagram has been received, every datagram has a destination (`UdpRelay.Step`).
- **Learning relay size bound.** The relay reads at most 1500 bytes per datagram (udp_relay.py:20). A longer datagram is cut to 1500 bytes (`Net.RecvFrom`).
- **Egress request read.** The egress makes a single `recv(1500)` for the request (kdc_relay.py:59).
  That read may return only part of the request (`Net.Recv`). The request crosses whole only when it fits and has fully arrived (`Tunnel.RequestCrossesTunnel`).
- **Shared outbound socket.** Every connection shares one outbound socket, so a late reply to an earlier re-send goes to the next connection.
  The i-th connection is answered with the i-th datagram that socket receives, whatever request that datagram answers (`RemoteUnwrap.ServeRepliesInOrder`).
- **Modes.** Only `local` and `remote` exist.
  argparse's `choices` refuses any other mode before the redirect is examined. So the `else` branch at kdc_relay.py:93-95 is unreachable.
  The model reports `InvalidMode` for that case.
- **Per-request errors.** The code catches no exceptions, so an I/O error ends the process.
  I/O errors are not modelled (see below).

## Model

| member | source | states |
|---|---|---|
| `Net.RecvFrom` | kdc_relay.py:24 | a datagram read keeps the source and yields a prefix of the payload of at most 1500 bytes; the payload is intact when it fits and cut to exactly 1500 bytes when it does not |
| `Net.Recv` | kdc_relay.py:32 | a stream read returns a prefix of the unread bytes, at most 1500 long; it is empty exactly when nothing is left, and it is the whole rest when that has arrived and fits |
| `Text.Split` | kdc_relay.py:84 | splitting on ':' yields one more field than there are colons; no field contains a colon; joining the fields with ':' gives the argument back |
| `Text.SplitJoin` | kdc_relay.py:84 | splitting undoes joining for colon-free fields, so the fields are the unique colon-free decomposition |
| `Text.IsDigits` | udp_relay.py:36 | `str.isdigit` holds exactly for non-empty strings of the characters '0' to '9'; such a string contains no colon |
| `Text.DecimalValue` | udp_relay.py:40 | `int(...)` of a digit string is below 10 to the power of its length, and it is zero exactly when every digit is '0' (its inverse is `Text.DecimalValueShow`) |
| `Text.DecimalValueShow` | kdc_relay.py:90 | `int(...)` of the canonical decimal rendering of n is n |
| `Text.DecimalValueLeadingZero` | kdc_relay.py:90 | a leading zero does not change a port's value |
| `RedirectSpec.ParseRedirect` | kdc_relay.py:84-92 | an accepted redirect's host never contains a colon (the full accept/reject rule is `RedirectSpec.ParseAcceptsIff`) |
| `RedirectSpec.ParseAcceptsIff` | kdc_relay.py:84-87 | a redirect is accepted if and only if it is digits ':' colon-free host ':' digits, with both digit strings non-empty |
| `RedirectSpec.ParseWellFormed` | kdc_relay.py:84-92 | every string of that shape is accepted; the ports are the decimal values of its first and third fields and the host is the middle field verbatim, possibly empty |
| `RedirectSpec.ParseAcceptedWellFormed` | kdc_relay.py:84-92 | every accepted string has that shape, and the ports are read from its digit fields |
| `RedirectSpec.ParseFormat` | udp_relay.py:35-40 | the canonical rendering of any triple whose host has no colon parses back to that triple |
| `RedirectSpec.RejectsNonNumericPort` | kdc_relay.py:85-87 | "abc:host:123" is refused |
| `RedirectSpec.RejectsFourFields` | kdc_relay.py:85-87 | "1:2:3:4" is refused, although every field is numeric |
| `RedirectSpec.AcceptsEmptyHost` | kdc_relay.py:89-92 | "088::88" is accepted with an empty host and both ports 88 |
| `KdcRelay.ParseMode` | kdc_relay.py:78-79 | only "local" and "remote" name a mode |
| `KdcRelay.KdcCommand` | kdc_relay.py:78-95 | the command runs if and only if the mode is local or remote and the redirect is valid; a bad mode is reported before a bad redirect; local selects the ingress and remote the egress |
| `KdcRelay.KdcCommandAccepts` | kdc_relay.py:89-92 | the ingress binds the named host at the local port and connects to that host at the remote port; the egress listens on 127.0.0.1 at the local port and sends to the named host at the remote port |
| `KdcRelay.SameRedirectRule` | udp_relay.py:35-38 | both programs accept exactly the same redirect arguments |
| `KdcRelay.NonNumericLocalPortRefused` | kdc_relay.py:85-87 | for every argument whose first ':'-field is not a digit string, the tunnel command in both modes and the learning relay's command all stop with a malformed-redirect error |
| `LocalWrap.Segment` | kdc_relay.py:31-32 | the reply loop makes one read per trace entry, and each read is at most 1500 bytes |
| `LocalWrap.EofAt` | kdc_relay.py:34-35 | the loop stops at the first empty read; every read before it is non-empty, and without one the loop is still reading |
| `LocalWrap.Accumulate` | kdc_relay.py:30-36 | the loop finishes if and only if some read is empty; the reply is then the concatenation of the reads before the first empty one |
| `LocalWrap.SegmentedReplyExact` | kdc_relay.py:30-36 | whatever the segmentation, the reply is the tunnel's whole byte stream or the loop is still reading; with more reads than bytes it is the whole stream |
| `LocalWrap.Session` | kdc_relay.py:24-39 | one session writes the received payload to the tunnel and then half-closes; every read comes after the half-close and is at most 1500 bytes; the session ends with the stream closed if and only if the tunnel's reply was read to its end |
| `LocalWrap.SessionOrder` | kdc_relay.py:24-29 | the session receives the datagram and connects to the tunnel first, and the received payload is the only thing it ever writes to the tunnel |
| `LocalWrap.SessionReply` | kdc_relay.py:30-39 | a finished session sends exactly one datagram, holding the tunnel's whole reply, to the original sender, then closes; an unfinished one sends nothing |
| `LocalWrap.EmptyReplyStillSent` | kdc_relay.py:30-38 | a tunnel that closes without sending anything still produces an empty datagram back to the sender |
| `LocalWrap.Serve` | kdc_relay.py:23-39 | the loop does something exactly when a request arrives, and no stream read it makes is longer than 1500 bytes |
| `LocalWrap.ServeAnswersEachRequest` | kdc_relay.py:23-39 | when every session finishes, each request gets exactly one reply, in arrival order, to its own sender, holding its tunnel's whole reply |
| `RemoteUnwrap.FirstReady` | kdc_relay.py:64-66 | the retry loop leaves at the first poll that finds a datagram; every poll before it timed out |
| `RemoteUnwrap.Reply` | kdc_relay.py:67-69 | a reply exists if and only if some poll found a datagram, and it is at most 1500 bytes |
| `RemoteUnwrap.RetryLoop` | kdc_relay.py:61-69 | the loop only sends and receives datagrams; every send carries the request unchanged to the fixed destination; a datagram is read at most once, as the loop's last action, and it is at most 1500 bytes |
| `RemoteUnwrap.RetryLoopShape` | kdc_relay.py:61-69 | with k timeouts before a ready poll, the loop makes exactly k+1 identical sends of the request to the destination and then reads one datagram; with no ready poll it sends once per poll |
| `RemoteUnwrap.Session` | kdc_relay.py:58-72 | a connection is accepted and read once; every datagram sent for it carries exactly what that read returned, to the destination; the connection is closed if and only if some poll found a reply |
| `RemoteUnwrap.SessionRetries` | kdc_relay.py:57-72 | every send of a connection carries the same request to the same destination, k+1 of them for k timeouts; exactly one reply is written, the first datagram read once the socket is ready; the connection is then closed |
| `RemoteUnwrap.SessionStillRetrying` | kdc_relay.py:61-66 | while every poll times out, the request is re-sent once per poll and nothing is written back |
| `RemoteUnwrap.ReplySourceIgnored` | kdc_relay.py:67-71 | the reply written back does not depend on the source address of the datagram read |
| `RemoteUnwrap.Serve` | kdc_relay.py:57-72 | the loop does something exactly when a connection arrives, and every datagram it sends, for whichever connection, goes to the fixed destination |
| `RemoteUnwrap.ServeRepliesInOrder` | kdc_relay.py:57-72 | over the shared outbound socket, the replies written are exactly the received datagrams, in order, one per connection |
| `Tunnel.RequestCrossesTunnel` | kdc_relay.py:24-62 | a request of at most 1500 bytes that reaches the far end whole is what the egress sends to the destination, k+1 times |
| `Tunnel.ReplyCrossesTunnel` | kdc_relay.py:30-71 | the datagram that ends the egress's retry loop is exactly what the ingress sends back to the original requester |
| `UdpRelay.Start` | udp_relay.py:16-17 | the relay starts with the given server and no client, so the first source it sees is learned as the client |
| `UdpRelay.Learn` | udp_relay.py:16-22 | the client is set from the first source only and then never changes; the server is never changed |
| `UdpRelay.Destination` | udp_relay.py:23-26 | a datagram goes to the server or to the client; it goes to the server exactly when it came from the client (or the client is the server); it is never sent back to its own source unless that source is the server |
| `UdpRelay.Step` | udp_relay.py:20-26 | one turn sends exactly one datagram, carrying a prefix of at most 1500 bytes of what arrived, to the server or the learned client, never back to its sender unless that is the server; the server is unchanged and a client is known afterwards |
| `UdpRelay.Run` | udp_relay.py:19-26 | the loop sends exactly one datagram per datagram received |
| `UdpRelay.RunLearned` | udp_relay.py:21-26 | once a client is known, the state never changes; each datagram is forwarded once, payload intact, to the server if it came from the client and to the client otherwise |
| `UdpRelay.RunFromStart` | udp_relay.py:16-26 | from the start state, the first source becomes the client for good and the server is unchanged; every datagram is forwarded once, payload intact, to the server if it came from the first source and to that first source otherwise |
| `UdpRelay.ServerFirstLoopsBack` | udp_relay.py:21-26 | if the server speaks first, it is taken for the client, and every datagram is then sent to the server |
| `UdpRelay.SecondClientNotLearned` | udp_relay.py:21-26 | after client a, a datagram from another client b goes to a, and so does the server's next datagram |
| `UdpRelay.UdpCommand` | udp_relay.py:31-40 | the relay starts if and only if there is exactly one argument and it is a valid redirect; a wrong argument count and a malformed redirect are reported as such |
| `UdpRelay.UdpCommandAccepts` | udp_relay.py:35-40 | a valid redirect makes the relay listen on 0.0.0.0 at the local port, with the named host and remote port as the server |

## Left out

- Socket creation, bind, connect, accept, the send and receive calls, and `select`. These are I/O.
  Each relay is a function over a finite input trace instead of an endless `while True` loop.
- The one-second timeout of `select` as a duration. Only its outcome appears, as a `TimedOut` event.
- Bind failure in udp_relay.py:7-12 and any exception from a socket call. These are I/O errors.
  The code has no handler for them in either tunnel loop, so such an error ends the process.
- Partial `send` on a stream. Every stream write is taken to write the whole buffer.
- Host name resolution. Endpoints are (host, port) values compared with `==`.
- Port range. Ports are unbounded naturals. A value above 65535 fails only when the socket call is made, which is I/O.
- `str.isdigit` on non-ASCII digits. Only '0'-'9' count as digits.
- The exit status values. A refusal is a `UsageError`: argparse's status 2 for a bad mode and status 1 otherwise are not distinguished.
- argparse's own handling of a missing or extra positional argument. The tunnel command is modelled with exactly its two arguments.
- `print` logging.
- The reply type. The model concatenates bytes, as Python 2 does.
  Under Python 3, kdc_relay.py:30 starts the reply as a text string and line 36 appends bytes to it, which would raise a type error.
  When the tunnel sends nothing, line 36 never runs, but line 38 then passes the text string `''` to `sendto`, which also raises under Python 3.
- LocalWrap.EmptyReplyStillSent: states the Python 2 behaviour, an empty datagram back to the sender. Under Python 3 that session ends the process with a type error instead.
