# Proxinator, verified model

This project models the stateful and parsing core of the Proxinator proxy toolkit in Dafny and proves
what that core promises: how a TLS ClientHello is reassembled and its server name found, how the reverse
server waits for it and replays it, how a tunnel carries bytes and goes down, how the SOCKS5 server's
handshake behaves with many sockets interleaved, and the smaller arithmetic and stateful utilities.

`dafny verify dfyconfig.toml` checks everything.

## How it is built

| file | models |
|---|---|
| `Bytes.dfy`, `NumberText.dfy`, `Base64.dfy`, `Authentication.dfy` | bytes and big-endian fields; numbers and lists as text; base64 (section 4 of RFC 4648); a username with its password |
| `Handshake.dfy` | `readHandshake`: TLS records to one handshake message (section 5.1 of RFC 8446) |
| `ClientHello.dfy` | `parseClientHello`, `parseServerNameList` (section 4.1.2 of RFC 8446, section 3 of RFC 6066) |
| `Sni.dfy` | `isClientHello`, `isComplete`, `parseSNI`, and a serialiser of hellos to invert |
| `ReverseProxy.dfy` | `waitSNI` and `bind` of the reverse server, and a connection's whole life |
| `Tunnel.dfy` | the two-socket tunnel without transforms |
| `Socks5Messages.dfy`, `Socks5Server.dfy` | the SOCKS5 message parsers; the handshake server |
| `ForwardProxy.dfy` | Basic credentials on the client and the server side; the forward server's `bind` |
| `Balancer.dfy`, `Cidr.dfy`, `SpeedMeter.dfy`, `ProxyChain.dfy` | the weighted pool, CIDR masks, the rolling meter, the chain client |

Code that updates state is a class (or a method with the source's loop) whose `ensures` equates the new
state with a step function of the old one; the laws are then proved about every run of those steps. In
`ReverseProxy` and `Socks5Server` an event that cannot happen (or is left out below) leaves the state alone,
so "every run" is every list of events. In `Tunnel` a run is a list of events each enabled when it happens.

What the laws speak of is told apart from the code: grammars and serialisers in wire bytes, a run's history
(`Tunnel.Sent`, `Tunnel.Reportable`, `Tunnel.Quiet`, `Socks5Server.Chunks`) by its events alone, host texts,
base64 and replies digit by digit and byte by byte. So a constant or a step that is wrong in the code and in
the function that mirrors it still contradicts a law.

A JavaScript exception is a constructor of a result type (`Malformed`, `Threw`), never a precondition.
Sockets, timers and promises are events: which data arrives when, when a timer is due, how `authenticate`
answers and how the network answers a dial are arbitrary. A destroyed socket emits no more data, a write to
it is dropped, and a write to a socket that was ended destroys it. Both sockets of a tunnel may be in any
state when it starts: fresh, half-closed, ended, destroyed, or closed.

## What turned out to hold only conditionally

- `waitSNI` gives an answer that does not depend on how the stream was cut into chunks exactly when the
  hello does not become complete only after its first 65537 bytes (`ReverseProxy.SplitIndependentExactly`;
  `ReverseProxy.LateHelloExists` builds a stream for which it does depend). For every stream of at most
  65536 bytes the answer is the one-shot answer.
- A SOCKS5 request is decoded back to what was encoded exactly when it reaches ten bytes: a domain of one
  or two bytes needs trailing bytes (`Socks5Messages.AddressRoundTrip`).
- Basic credentials come back exactly when the username is non-empty and colon-free
  (`ForwardProxy.CredentialsRoundTrip`).
- A SOCKS5 transcript is legal exactly when the application calls `bind` or `error` at most once on a
  connection whose socket is neither ended nor destroyed (`Socks5Server.TranscriptLegalExactly`); the server
  does not stop a second `bind`, which sends a second reply (`Socks5Server.SecondBindIllegal`).
- A tunnel forwards a close in every run exactly when it could still see it: not when the socket had already
  closed without a FIN before the tunnel started (`Tunnel.CloseForwardedExactly`). The other socket is then
  left behind, neither ended nor destroyed, until an error, an idle timer or an outsider takes it down
  (`Tunnel.StrandedStays`). A client of the reverse server that dies between `waitSNI` and `bind` does this
  to its target (`ReverseProxy.MissedCloseStrandsTarget`, `ReverseProxy.MissedCloseExists`).
- Negative seeds of the balancer do not wrap around: each selects the first candidate
  (`Balancer.NegativeSeedSelectsFirst`).

## Model

| member | source | states |
|---|---|---|
| `Handshake.ReadHandshake` | src/utils/sni/index.js:35-74 | the record loop computes the verdict on the buffer: more data, a message, or one of the two errors |
| `Handshake.VerdictCharacterised` | src/utils/sni/index.js:35-74 | for every buffer and verdict: it is the verdict if and only if non-empty records can be peeled off the front so that what they carry and what is left justify it, told on the bytes |
| `Handshake.VerdictMonotone` | src/utils/sni/index.js:30-34 | a settled verdict, and its message, survive every extension of the buffer |
| `Handshake.FramingReassembles` | src/utils/sni/index.js:41-73 | any framing into records that carries the message, followed by anything, reassembles to exactly that message |
| `Handshake.ProperPrefixIncomplete` | src/utils/sni/index.js:41-68 | every proper prefix of a framing of exactly one message asks for more data |
| `ClientHello.ParseServerNameList` | src/utils/sni/index.js:81-102 | the list loop, including the clamped end, truncated entries and the error on a missing length |
| `ClientHello.ParseClientHello` | src/utils/sni/index.js:109-140 | the walk over session id, cipher suites and compression methods, with every out-of-range read an error |
| `ClientHello.ParseExtensions` | src/utils/sni/index.js:127-139 | the extensions loop finds the first server_name extension, clamped to the region |
| `ClientHello.FindHostCharacterised` | src/utils/sni/index.js:85-101 | a name is found if and only if the list is entries of other types, then a whole host_name entry with it, then anything |
| `ClientHello.FindServerNameCharacterised` | src/utils/sni/index.js:127-139 | a body is found if and only if the region is extensions of other types, then a server_name extension (type bytes 00 00) with that body, whole or cut by the region's end |
| `ClientHello.HelloCharacterised` | src/utils/sni/index.js:110-117 | the extensions start where the three length-prefixed vectors end, for every message that is a hello and for no other |
| `ClientHello.WalkCharacterised` | src/utils/sni/index.js:81-140 | soundness and completeness on arbitrary bytes: the walk yields a host name if and only if the grammar derives it from the message |
| `Sni.IsComplete` | src/utils/sni/index.js:163-169 | false exactly when more data is needed; errors count as complete |
| `Sni.ParseSNI` | src/utils/sni/index.js:176-188 | every error and every incomplete buffer becomes null |
| `Sni.HostNameCharacterised` | src/utils/sni/index.js:176-188 | parseSNI answers a name if and only if records at the front of the buffer carry a message that derives it |
| `Sni.ReadyMonotone` | src/utils/sni/index.js:148-187 | more bytes never unsettle a complete buffer nor change its answer |
| `Sni.ReadyCharacterised` | src/utils/sni/index.js:148-169 | waitSNI's test, on the bytes: a handshake record of major version 3 opens a ClientHello, and the buffer is not cut off inside it |
| `Sni.FramingsAgree` | src/utils/sni/index.js:35-74 | how a message is cut into records, and what follows, never shows in the answer |
| `Sni.WalkInvertsSerialise` | src/utils/sni/index.js:109-140 | the walk inverts the serialiser on every hello that fits its length fields |
| `Sni.FragmentedHelloReadsBack` | src/utils/sni/index.js:176-188 | round trip: under any fragmentation into records and any trailing bytes parseSNI returns the first host_name of the first server_name extension, or null |
| `Sni.FragmentedHelloRecognised` | src/utils/sni/index.js:148-154 | such a buffer is ready for waitSNI if and only if its first record has major version 3 |
| `Sni.FragmentedHelloWaits` | src/utils/sni/index.js:163-169 | isComplete is false for every proper prefix of a framed hello |
| `ReverseProxy.Connection.constructor` | src/proxy/server/reverse/index.js:44-52 | an accepted connection is paused, with an empty head |
| `ReverseProxy.Connection.WaitSNI` | src/proxy/server/reverse/index.js:90-143 | the data listener, close listener and timer are registered and the socket flows |
| `ReverseProxy.Connection.OnData` | src/proxy/server/reverse/index.js:109-137 | the data listener: append, answer and pause when ready, refuse and destroy beyond 65536 bytes, otherwise keep waiting |
| `ReverseProxy.Connection.OnTimer` | src/proxy/server/reverse/index.js:92-102 | the timer unregisters everything, destroys the client and rejects |
| `ReverseProxy.Connection.OnClose` | src/proxy/server/reverse/index.js:104-107 | a close while waiting unregisters everything and rejects |
| `ReverseProxy.Connection.Bind` | src/proxy/server/reverse/index.js:159-177 | whatever state client and target are in, the head is written to the target before the tunnel starts on the two sockets |
| `ReverseProxy.IncrementalIsOneShot` | src/proxy/server/reverse/index.js:109-137 | for every stream and every split: pending exactly while the whole stream is not ready and within 65536 bytes, and any answer is the answer for the whole stream |
| `ReverseProxy.SplitIndependentExactly` | src/proxy/server/reverse/index.js:112-123 | the outcome depends on the bytes alone if and only if the stream, when ready, is ready within its first 65537 bytes |
| `ReverseProxy.LateHelloDependsOnSplit` | src/proxy/server/reverse/index.js:115-123 | otherwise one chunk is answered and a boundary at 65537 bytes is refused |
| `ReverseProxy.LateHelloExists` | src/proxy/server/reverse/index.js:14-15 | a concrete hello of that kind: 65535 bytes of cipher suites in two records |
| `ReverseProxy.StreamPreserved` | src/proxy/server/reverse/index.js:90-177 | over all runs, client and target in any state at bind: no byte of the client is lost between buffering, pause, head replay and pipe; after what it had been written before, the target is written a prefix of the client's stream, all but the unread bytes while it stands or once the tunnel ended it; a FIN of the client, and a close that bind did not miss, take the target down |
| `ReverseProxy.PromiseSettlesOnce` | src/proxy/server/reverse/index.js:90-144 | over all runs: once waitSNI was called, either it is pending, with the client flowing and at most 65536 bytes held, or exactly one of resolve and reject was called, once; an answer is right for everything sent and leaves the client paused; a rejection leaves it destroyed and names the timer, the close or the limit that caused it |
| `ReverseProxy.MissedCloseStrandsTarget` | src/proxy/server/reverse/index.js:159-177 | when the client closed without a FIN before bind, a target that stands gets the head and no more, and in every run it is neither ended nor destroyed until an error, an idle timer or an outsider does it |
| `ReverseProxy.MissedCloseExists` | src/proxy/server/reverse/index.js:104-131 | every client whose hello was answered can close before bind and so bring that about |
| `Tunnel.Tunnel.constructor` | src/utils/tunnel/index.js:26-107 | on sockets in any state: both become half-open, their idle timers start, bytes written before stay in front, and a side whose source had emitted "end" before is ended |
| `Tunnel.Tunnel.OnData` | src/utils/tunnel/index.js:91-106 | a chunk read from one socket is written to the other, which counts as activity on both |
| `Tunnel.Tunnel.OnEnd` | src/utils/tunnel/index.js:45-51 | a FIN read on one side ends the other side only |
| `Tunnel.Tunnel.OnClose` | src/utils/tunnel/index.js:37-43 | a close of one side ends the other |
| `Tunnel.Tunnel.OnError` | src/utils/tunnel/index.js:55-64 | an error is reported unless benign, and destroys both sockets |
| `Tunnel.Tunnel.OnIdle` | src/utils/tunnel/index.js:72-83 | the first timer to fire destroys both sockets and calls onTimeout, a second does nothing |
| `Tunnel.BytesConserved` | src/utils/tunnel/index.js:37-51 | over all runs, from sockets in any state: each side was written, after what preceded the tunnel, a prefix of the chunks the other side sent in the run; nothing is missing while it stands or once the tunnel ended it; a FIN read before or during the tunnel is always forwarded to a socket that still stands |
| `Tunnel.CloseForwardedExactly` | src/utils/tunnel/index.js:37-43 | a socket's close takes the other one down in every run if and only if, at the call, the socket had not already closed without a FIN, or the other was ended or destroyed |
| `Tunnel.StrandedStays` | src/utils/tunnel/index.js:37-51 | after such a missed close the other socket is neither ended nor destroyed in any run without an error, an idle expiry or an outside kill |
| `Tunnel.AbortDestroysBoth` | src/utils/tunnel/index.js:32-89 | an error or an idle expiry after any run destroys both sockets in the same step and for good: whatever follows, neither stands again or is written another byte |
| `Tunnel.CallbacksExact` | src/utils/tunnel/index.js:55-83 | over all runs: onTimeout was called once if any timer fired and never otherwise; onError was given exactly the codes of the run's errors, in order, except the three benign ones |
| `Tunnel.IdleIsExact` | src/utils/tunnel/index.js:66-89 | over all runs: while both sockets are open a timer is due if and only if no chunk passed in either direction for idleTimeout, counted from the events, and no teardown comes sooner |
| `Tunnel.GracefulRunIsOrderly` | src/utils/tunnel/index.js:29-51 | on sockets that are up, without errors, timeouts and outside kills: a FIN is forwarded exactly when it was read, and no socket goes before both FINs were read |
| `Tunnel.HalfCloseKeepsReverse` | src/utils/tunnel/index.js:5-6 | after one FIN both sockets stand and a later reply of the other side is delivered whole |
| `Tunnel.GracefulRunDelivers` | src/utils/tunnel/index.js:5-6 | a graceful run loses no byte in either direction, through both closes |
| `Socks5Messages.ParseAddress` | src/proxy/server/socks5/index.js:65-104 | the address parser, with the loop over the eight IPv6 groups; total, so no read is out of bounds |
| `Socks5Messages.AddressRoundTrip` | src/proxy/server/socks5/index.js:65-104 | decoding inverts encoding, for every destination, port and trailing bytes, if and only if the message has the minimum ten bytes; the host is the dotted quad, the name, or eight hexadecimal groups, spelled out digit by digit |
| `Socks5Messages.AddressCharacterised` | src/proxy/server/socks5/index.js:65-104 | an address comes out of arbitrary bytes if and only if they encode it after three bytes of any value |
| `Socks5Messages.TextOfHost` | src/proxy/server/socks5/index.js:74-97 | the joined text is a "." b "." c "." d in decimal, or the eight groups 256 * a[2i] + a[2i+1] in hexadecimal, without leading zeros |
| `Socks5Messages.HostTextInjective` | src/proxy/server/socks5/index.js:74-97 | the dotted or hex text and the address type determine the bytes sent |
| `Socks5Messages.AuthRoundTrip` | src/proxy/server/socks5/index.js:111-132 | username and password come back if and only if the message has the minimum five bytes |
| `Socks5Messages.AuthCharacterised` | src/proxy/server/socks5/index.js:111-132 | credentials come out of arbitrary bytes if and only if they encode them behind any version byte |
| `Socks5Server.Server.OnConnection` | src/proxy/server/socks5/index.js:161-177 | an accepted socket joins the handshaking set and waits for a greeting |
| `Socks5Server.Server.OnGreeting` | src/proxy/server/socks5/index.js:335-418 | the greeting listener: collects the announced methods by its loop and answers 02 before 00 before FF |
| `Socks5Server.Server.OnData` | src/proxy/server/socks5/index.js:184-418 | a chunk goes to the one-shot listener in place, or to nobody; a good request moves the socket to the connections |
| `Socks5Server.Server.OnEnd` | src/proxy/server/socks5/index.js:145-147 | the client's FIN ends the socket too, unless the server was made half-open; no data comes after it |
| `Socks5Server.Server.OnRequest` | src/proxy/server/socks5/index.js:185-200 | a request is refused with 07 or 01, or yields the connection's destination |
| `Socks5Server.Server.OnAnswer` | src/proxy/server/socks5/index.js:374-409 | the continuation of authenticate for true, false and rejection, with and without credentials |
| `Socks5Server.Server.OnHandshakeTimer` | src/proxy/server/socks5/index.js:170-172 | the handshake timer destroys the socket |
| `Socks5Server.Server.OnClose` | src/proxy/server/socks5/index.js:174-177 | a close leaves both sets, and emits "close" for a connection |
| `Socks5Server.Server.CloseServer` | src/proxy/server/socks5/index.js:456-478 | close() destroys every socket of both sets, by its loops, and empties them |
| `Socks5Server.Server.BindConnection` | src/proxy/server/socks5/index.js:235-251 | bind writes the success reply first, unless the socket is ended or destroyed, and then starts the tunnel on the two sockets as they are |
| `Socks5Server.Server.FailConnection` | src/proxy/server/socks5/index.js:257-260 | error writes the failure reply and ends the socket |
| `Socks5Server.Server.EndConnection` | src/proxy/server/socks5/index.js:296-298 | end ends the socket |
| `Socks5Server.GreetingAnswered` | src/proxy/server/socks5/index.js:335-418 | on the bytes, at any point of a run: a version 5 greeting is answered 05 02 if and only if one of the announced bytes is 2, else 05 00 if and only if one is 0, else 05 FF and the end; another version by the end alone; and what is awaited then |
| `Socks5Server.EachAnswered` | src/proxy/server/socks5/index.js:184-409 | on the bytes, at any point of a run: what each later message, answer of authenticate and call of the application is answered with, whether the socket is ended or destroyed, and where the handshake goes |
| `Socks5Server.SetsPartitionSockets` | src/proxy/server/socks5/index.js:164-177 | over all runs: the sets are disjoint, every standing socket is in the one its progress asks for, no closed one is in either, and "close" was emitted once for each closed connection and for no other socket |
| `Socks5Server.CloseDestroysAll` | src/proxy/server/socks5/index.js:456-478 | after any run, close() leaves both sets empty and every accepted socket destroyed |
| `Socks5Server.ConnectionImpliesVouched` | src/proxy/server/socks5/index.js:355-413 | over all runs: with authenticate set a connection was preceded by a true answer for that socket; getAuth gives exactly the credentials answered for, which that socket presented in one message, and gives some exactly when the first chunk announced username and password; every other connection announced no-auth; the destination is what the socket asked for with command 1 |
| `Socks5Server.TranscriptLegalExactly` | src/proxy/server/socks5/index.js:184-418 | over all runs: what a socket was sent is, on the bytes, a legal transcript for the greeting that came first if and only if the application called bind or error at most once while the connection's socket was neither ended nor destroyed |
| `Socks5Server.SecondBindIllegal` | src/proxy/server/socks5/index.js:235-238 | for every good request, an application that binds twice has two success replies sent, which is no legal transcript |
| `Socks5Server.OneCallKeepsTranscriptLegal` | src/proxy/server/socks5/index.js:235-260 | an application that calls bind or error at most once keeps transcripts legal; and in every run success is only ever sent by its bind, past the check |
| `Socks5Server.TakenDown` | src/proxy/server/socks5/index.js:170-177 | timer, error(), end(), FIN, socket errors and closes, at any point of a run, each silence the socket for good, the timer by destroying it: nothing is written to it later and no connection is emitted for it |
| `Socks5Server.DownIsFinal` | src/proxy/server/socks5/index.js:370-390 | a socket that is down is never written again and never becomes a connection, late answers of authenticate included |
| `ForwardProxy.RequestHeaders` | src/proxy/client/forward/index.js:32-64 | the CONNECT headers and their values, with Proxy-Authorization exactly when there is a username, as Basic with the standard base64 of name, colon and password |
| `ForwardProxy.GetAuthCharacterised` | src/proxy/server/forward/index.js:117-146 | whatever the header: credentials come out if and only if it is "Basic ", then text that decodes to a colon-free name, a colon and the password |
| `ForwardProxy.GetAuthSplitsAtFirstColon` | src/proxy/server/forward/index.js:117-146 | the server decodes the client's header and splits at the first colon |
| `ForwardProxy.CredentialsRoundTrip` | src/proxy/client/forward/index.js:60-64 | the server reads the client's credentials if and only if the username is non-empty and has no colon |
| `ForwardProxy.WriteResponse` | src/proxy/server/forward/index.js:32-53 | a response is its status line, with CR and LF in the message replaced, and the two headers; nothing is written to a socket that is ended or destroyed |
| `ForwardProxy.Bind` | src/proxy/server/forward/index.js:221-241 | on sockets in any state: the bytes after CONNECT precede all piped bytes to the target, and the 200 response, unless the client is ended or destroyed, precedes all piped bytes to the client |
| `Base64.DecodeInvertsEncode` | src/proxy/server/forward/index.js:130 | decoding inverts encoding for every length and padding |
| `Base64.EncodeIsStandard` | src/proxy/client/forward/index.js:60-64 | what is encoded is section 4 of RFC 4648: 24-bit groups, its alphabet, "=" for each missing byte |
| `Balancer.Pool.CalculateWeights` | src/utils/balancer/index.js:32-50 | the running sums of the scaled weights become the index, aligned with the candidates |
| `Balancer.Pool.Push` | src/utils/balancer/index.js:57-62 | the candidate is appended with its weight, or 1, and the index agrees again |
| `Balancer.Pool.AddMany` | src/utils/balancer/index.js:68-75 | the candidates are appended in order, each with its weight, or 1, and the index agrees again |
| `Balancer.Pool.Delete` | src/utils/balancer/index.js:81-92 | the first matching candidate and its weight are removed together, or nothing is |
| `Balancer.Pool.GetRandomCandidate` | src/utils/balancer/index.js:99-109 | the first candidate whose index entry exceeds the pointer, none when the pool is empty |
| `Balancer.AddManyIsPushes` | src/utils/balancer/index.js:64-75 | adding many leaves what pushing them one by one leaves |
| `Balancer.PrefixScales` | src/utils/balancer/index.js:35-46 | index entries are the prefix sums of the weights over the least weight |
| `Balancer.PointerSelectsInterval` | src/utils/balancer/index.js:99-106 | with positive weights every pointer below max selects exactly one candidate, on an interval as long as its weight over the least |
| `Balancer.RemainderInRange` | src/utils/balancer/index.js:100 | a seed's remainder keeps its sign and stays below max, and seeds already there stay |
| `Balancer.RemainderIsCongruent` | src/utils/balancer/index.js:100 | a seed and its remainder differ by a whole number of times max |
| `Balancer.RemainderWraps` | src/utils/balancer/index.js:100 | another max added to a non-negative seed selects the same pointer |
| `Balancer.NegativeSeedSelectsFirst` | src/utils/balancer/index.js:99-106 | with positive weights every negative seed selects the first candidate |
| `Balancer.ExactShares` | src/utils/balancer/index.js:32-109 | for integer weights exactly weight-many of the seeds k/min below max select each candidate, and they are consecutive |
| `Cidr.Mask` | src/utils/ip/index.js:61-79 | the mask loop over a decreasing mask size, applied in place to a copy |
| `Cidr.Nets` | src/utils/ip/index.js:85-91 | one masked address per prefix length, from 1 to the address's bits |
| `Cidr.AndIsFloor` | src/utils/ip/index.js:67-76 | and-ing with a mask of leading ones is rounding down to a multiple of a power of two |
| `Cidr.MaskIsFloor` | src/utils/ip/index.js:61-79 | the byte-wise mask of an address of any length is floor to a multiple of 2^(L-n) of its big-endian value |
| `Cidr.FullMask` | src/utils/ip/index.js:65-72 | a mask of all bits or more changes nothing |
| `Cidr.MasksCompose` | src/utils/ip/index.js:61-79 | mask m after mask n is mask min(m, n) |
| `Cidr.NetIsBlock` | src/utils/ip/index.js:61-91 | a network is exactly the block of 2^(L-n) consecutive addresses from the masked one |
| `Cidr.NetsNest` | src/utils/ip/index.js:85-91 | the networks of nets() contain the address and lie inside one another |
| `SpeedMeter.Meter.Prune` | src/measure/speed/index.js:22-28 | exactly the buckets older than the window go |
| `SpeedMeter.Meter.Transform` | src/measure/speed/index.js:31-49 | the chunk joins the log, the emitted speed is that of the full log, at most six buckets remain |
| `SpeedMeter.Meter.GetSpeed` | src/measure/speed/index.js:56-66 | the speed is the full log's bytes of the last five seconds and the current one over five, as if nothing had been pruned |
| `SpeedMeter.BucketsAreBytes` | src/measure/speed/index.js:56-66 | over a covered span the buckets add up to the log |
| `SpeedMeter.BytesAdditive` | src/measure/speed/index.js:57-63 | the bytes of a span are a sum over the log: a chunk inside counts in full, one outside not at all |
| `ProxyChain.MakeHop` | src/proxy/client/chain/index.js:10-82 | a hop's client, by the protocol's name: socks5 for "socks5", CONNECT for "http" and "https", none for any other; its target and options, lookup and family for the first hop only, the previous socket for the others; and the error it fails with |
| `ProxyChain.ChainProxies` | src/proxy/client/chain/index.js:50-90 | every dial has the client its proxy's protocol names, and the right target and options; success gives a socket through all proxies in order to the target; failure at a hop dials nothing after it, destroys exactly the sockets of the hops before it, and rejects with that hop's own error |
| `ProxyChain.Chain` | src/proxy/client/chain/index.js:43-90 | an empty chain is a direct connection with all options |

## Left out

- Real sockets, TLS, HTTP, promises and timers: they are events; backpressure, `unpipe` and write buffering are not modelled, a written byte counts as written.
- UTF-8 decoding and URL parsing: names, credentials and domains stay bytes.
- Tunnels with `up` or `down` transforms, and an application ending a socket of a bound tunnel itself.
- `Tunnel.Tunnel.constructor`: a pipe from a source that had emitted "end" ends its destination in the next tick; the model does it at once.
- `ReverseProxy.Connection.WaitSNI`: a second call while the first is pending, which would register every listener twice.
- Calling `bind` twice on a connection, binding while `waitSNI` is pending, `end` and `error` of the reverse connection, and user callbacks that throw.
- `Socks5Server.Server.EndConnection`: a last chunk that the application passes to `end()`, which would follow the handshake's own messages.
- SOCKS5 messages split or coalesced across chunks: the server takes each chunk for one message, and so does the model; bytes after the handshake belong to the tunnel.
- `ForwardProxy.GetAuth`: Node's base64 decoder also skips whitespace and accepts the URL-safe alphabet; the model stops at the first character outside the alphabet, which an encoder never emits before the padding.
- The rest of the forward server (405 for plain requests, error responses, connection set) and of the reverse server's connection set, which are simpler instances of the SOCKS5 bookkeeping.
- `Cidr.Mask`: parsing and printing addresses (`ipaddr.js`) are not visible; masks are on bytes.
- `Balancer.Pool.GetRandomCandidate`: floating-point rounding and the random source; reals and an explicit random number instead.
- `ProxyChain.ChainProxies`: protocols that name inherited properties of the client table (such as `constructor:`) count as unsupported; what the hop clients do on the wire is not modelled beyond which host they ask to connect where.
- Argument normalisation, DNS retry and filtering, nip.io, bandwidth, slowdown, the measure chain, the agent and the address getters.
