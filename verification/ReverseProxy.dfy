/**
 * The reverse server's connection (src/proxy/server/reverse/index.js): waitSNI buffering a hello
 * chunk by chunk, and bind replaying what was buffered before splicing the sockets.
 */
module ReverseProxy {
  import opened Bytes
  import opened Sni
  import H = Handshake
  import T = Tunnel

  const MAX_CLIENT_HELLO_SIZE: nat := 65536

  /** The calls of the promise's resolve and reject. */
  datatype Settlement = Resolved(host: Option<bytes>) | TimedOut | ClosedEarly | TooLarge

  /**
   * A connection before bind: `waiting` while waitSNI's data listener, close listener and timer are
   * in place, `settled` the calls of resolve and reject so far, `client` the client's socket.
   */
  datatype Conn = Conn(head: bytes, waiting: bool, settled: seq<Settlement>, flowing: bool, client: T.SocketState) {
    function Destroyed(): Conn {
      this.(client := client.(destroyed := true))
    }
  }

  /** What the "connection" handler makes of an accepted socket. */
  function Accepted(client: T.SocketState): Conn {
    Conn([], false, [], false, client)
  }

  function Ask(c: Conn): Conn {
    c.(waiting := true, flowing := true)
  }

  function Settle(c: Conn, s: Settlement): Conn {
    c.(waiting := false, settled := c.settled + [s])
  }

  /** The data listener, when it is registered; otherwise the chunk passes it by. */
  function Listen(c: Conn, chunk: bytes): Conn {
    if !c.waiting then c
    else
      var c' := c.(head := c.head + chunk);
      if Ready(c'.head) then Settle(c', Resolved(HostName(c'.head))).(flowing := false)
      else if |c'.head| > MAX_CLIENT_HELLO_SIZE then Settle(c', TooLarge).Destroyed()
      else c'
  }

  function Expire(c: Conn): Conn {
    if c.waiting then Settle(c, TimedOut).Destroyed() else c
  }

  /** The client's socket closes. */
  function Closing(c: Conn): Conn {
    var c' := c.(client := c.client.(destroyed := true, closed := true));
    if c.waiting then Settle(c', ClosedEarly) else c'
  }

  // ---------------------------------------------------------------- the code

  class Connection {
    const clientSocket: T.Socket
    var head: bytes
    var flowing: bool
    var dataListener: bool
    var closeListener: bool
    var timer: bool
    var settled: seq<Settlement>

    ghost predicate Valid()
      reads this
    {
      dataListener == closeListener == timer
    }

    ghost function View(): Conn
      reads this, clientSocket
    {
      Conn(head, dataListener, settled, flowing, clientSocket.View())
    }

    constructor (clientSocket: T.Socket)
      ensures Valid() && View() == Accepted(clientSocket.View()) && this.clientSocket == clientSocket
    {
      this.clientSocket := clientSocket;
      head, flowing, settled := [], false, [];
      dataListener, closeListener, timer := false, false, false;
    }

    method WaitSNI()
      requires Valid() && !dataListener
      modifies this
      ensures Valid() && View() == Ask(old(View()))
    {
      timer, dataListener, closeListener := true, true, true;
      flowing := true;
    }

    method Cleanup()
      modifies this`timer, this`dataListener, this`closeListener
      ensures !timer && !dataListener && !closeListener
    {
      timer, dataListener, closeListener := false, false, false;
    }

    method OnTimer()
      requires Valid() && timer
      modifies this, clientSocket
      ensures Valid() && View() == Expire(old(View()))
    {
      Cleanup();
      clientSocket.Destroy();
      settled := settled + [TimedOut];
    }

    method OnClose()
      requires Valid()
      modifies this, clientSocket
      ensures Valid() && View() == Closing(old(View()))
    {
      clientSocket.Close();
      if closeListener {
        Cleanup();
        settled := settled + [ClosedEarly];
      }
    }

    method OnData(data: bytes)
      requires Valid() && dataListener
      modifies this, clientSocket
      ensures Valid() && View() == Listen(old(View()), data)
    {
      head := head + data;
      var complete := false;
      if IsClientHello(head) {
        complete := IsComplete(head);
      }
      if !complete {
        if |head| > MAX_CLIENT_HELLO_SIZE {
          Cleanup();
          clientSocket.Destroy();
          settled := settled + [TooLarge];
        }
        return;
      }
      Cleanup();
      var domain := ParseSNI(head);
      settled := settled + [Resolved(domain)];
      flowing := false;
    }

    /** bind(socket, { idleTimeout }): the buffered head goes first, then the sockets are spliced as they are. */
    method Bind(socket: T.Socket, idleTimeout: nat, now: nat) returns (tunnel: T.Tunnel)
      requires Valid() && !dataListener && clientSocket != socket
      modifies this`flowing, clientSocket, socket
      ensures Valid() && flowing
      ensures tunnel.Valid() && tunnel.clientSocket == clientSocket && tunnel.socket == socket
      ensures tunnel.View() ==
              T.Start(old(clientSocket.View()), T.Flushed(old(socket.View()), head, now), idleTimeout, now)
    {
      if |head| > 0 {
        socket.Write(head, now);
      }
      tunnel := new T.Tunnel(clientSocket, socket, idleTimeout, now);
      flowing := true;
    }
  }

  // ---------------------------------------------------------------- chunk by chunk, or at once

  const NEW_SOCKET: T.SocketState := T.Connected(false, 0)

  /** waitSNI fed these chunks, with neither timer nor close in between. */
  function Feed(chunks: seq<bytes>): Conn {
    if chunks == [] then Ask(Accepted(NEW_SOCKET)) else Listen(Feed(chunks[..|chunks| - 1]), chunks[|chunks| - 1])
  }

  /** What the connection knows of the stream it was fed. */
  ghost predicate Heard(c: Conn, stream: bytes) {
    if c.waiting then
      c.head == stream && c.settled == [] && !Ready(stream) && |stream| <= 65536
    else
      c.head <= stream
      && ((c.settled == [Resolved(HostName(c.head))] && Ready(c.head))
          || (c.settled == [TooLarge] && !Ready(c.head) && |c.head| > 65536))
  }

  lemma {:induction false} FeedHeard(chunks: seq<bytes>)
    ensures Heard(Feed(chunks), Concat(chunks))
    decreases |chunks|
  {
    if chunks != [] {
      FeedHeard(chunks[..|chunks| - 1]);
    }
  }

  lemma ReadyPrefix(part: bytes, stream: bytes)
    requires part <= stream && Ready(part)
    ensures Ready(stream) && HostName(stream) == HostName(part)
  {
    assert stream == part + stream[|part|..];
    ReadyMonotone(part, stream[|part|..]);
  }

  /**
   * Incremental equals one-shot. For any stream in any chunks: still waiting exactly when the whole
   * stream is not ready and within the limit; an answer given is the answer for the whole stream;
   * and a stream within the limit is answered exactly when it is ready.
   */
  lemma IncrementalIsOneShot(chunks: seq<bytes>)
    ensures var c, stream := Feed(chunks), Concat(chunks);
            && (c.waiting <==> !Ready(stream) && |stream| <= 65536)
            && (c.waiting ==> |c.head| <= 65536 && c.head == stream && c.settled == [])
            && (forall h :: Resolved(h) in c.settled ==> Ready(stream) && h == HostName(stream))
            && (|stream| <= 65536 ==>
                  (c.settled == [Resolved(HostName(stream))] <==> Ready(stream)))
            && (TooLarge in c.settled ==> |stream| > 65536)
  {
    var c, stream := Feed(chunks), Concat(chunks);
    FeedHeard(chunks);
    if !c.waiting && Ready(c.head) {
      ReadyPrefix(c.head, stream);
    }
  }

  /** The answer depends on the bytes alone, not on how they arrived. */
  ghost predicate SplitIndependent(stream: bytes) {
    forall chunks, chunks' :: Concat(chunks) == stream && Concat(chunks') == stream
                              ==> Feed(chunks).settled == Feed(chunks').settled
  }

  lemma ReadyInTimeResolves(chunks: seq<bytes>)
    requires var stream := Concat(chunks);
             Ready(stream) && (|stream| <= 65537 || Ready(stream[..65537]))
    ensures Feed(chunks).settled == [Resolved(HostName(Concat(chunks)))]
  {
    var c, stream := Feed(chunks), Concat(chunks);
    FeedHeard(chunks);
    IncrementalIsOneShot(chunks);
    assert |c.head| == |stream| ==> c.head == stream;
    if c.settled == [TooLarge] {
      if |stream| > 65537 {
        ReadyPrefix(stream[..65537], c.head);
      }
    } else {
      ReadyPrefix(c.head, stream);
    }
  }

  lemma FeedOne(chunk: bytes)
    ensures Feed([chunk]) == Listen(Ask(Accepted(NEW_SOCKET)), chunk)
  {
    assert [chunk][..0] == [];
  }

  lemma FeedTwo(a: bytes, b: bytes)
    ensures Feed([a, b]) == Listen(Feed([a]), b)
  {
    assert [a, b][..1] == [a];
  }

  lemma ConcatOne(a: bytes)
    ensures Concat([a]) == a
  {
    assert [a][..0] == [];
  }

  lemma ConcatTwo(a: bytes, b: bytes)
    ensures Concat([a, b]) == a + b
  {
    ConcatOne(a);
    assert [a, b][..1] == [a];
  }

  /** Sent at once such a stream is answered; with a chunk boundary at 65537 it is refused. */
  lemma LateHelloDependsOnSplit(stream: bytes)
    requires |stream| > 65537
    requires Ready(stream) && !Ready(stream[..65537])
    ensures var a, b := stream[..65537], stream[65537..];
            && Concat([stream]) == stream == Concat([a, b])
            && Feed([stream]).settled == [Resolved(HostName(stream))]
            && Feed([a, b]).settled == [TooLarge]
  {
    var a, b := stream[..65537], stream[65537..];
    assert a + b == stream;
    FeedTwo(a, b);
    ConcatTwo(a, b);
    FeedOne(a);
    FeedOne(stream);
    assert Feed([a]).settled == [TooLarge] by { assert [] + a == a; }
    assert Feed([stream]).settled == [Resolved(HostName(stream))] by { assert [] + stream == stream; }
    ConcatOne(stream);
  }

  lemma EarlyHelloIgnoresSplit(stream: bytes, chunks: seq<bytes>, chunks': seq<bytes>)
    requires |stream| > 65537 && Ready(stream) ==> Ready(stream[..65537])
    requires Concat(chunks) == stream && Concat(chunks') == stream
    ensures Feed(chunks).settled == Feed(chunks').settled
  {
    if Ready(stream) {
      ReadyInTimeResolves(chunks);
      ReadyInTimeResolves(chunks');
    } else {
      IncrementalIsOneShot(chunks);
      IncrementalIsOneShot(chunks');
      FeedHeard(chunks);
      FeedHeard(chunks');
    }
  }

  /**
   * Past the limit the chunking can matter, and this is exactly when: the hello is complete in the
   * stream but not within the first 65537 bytes of it.
   */
  lemma SplitIndependentExactly(stream: bytes)
    ensures SplitIndependent(stream) <==>
            (|stream| > 65537 && Ready(stream) ==> Ready(stream[..65537]))
  {
    if |stream| > 65537 && Ready(stream) && !Ready(stream[..65537]) {
      LateHelloDependsOnSplit(stream);
    } else {
      forall chunks, chunks' | Concat(chunks) == stream && Concat(chunks') == stream
        ensures Feed(chunks).settled == Feed(chunks').settled
      {
        EarlyHelloIgnoresSplit(stream, chunks, chunks');
      }
    }
  }

  /** Such streams exist: a hello offering 65535 bytes of cipher suites, in two records. */
  lemma LateHelloExists() returns (stream: bytes)
    ensures |stream| > 65537
    ensures Ready(stream) && !Ready(stream[..65537])
    ensures !SplitIndependent(stream)
  {
    var hello := Hello(Zeros(34), [], Zeros(65535), [], None);
    var m := Serialise(hello);
    assert |m| == 65577;
    var rs: seq<H.LegalRecord> := [H.Record(3, 1, m[..65535]), H.Record(3, 1, m[65535..])];
    assert rs[1..] == [rs[1]] && rs[1..][1..] == [];
    assert H.Payload(rs[1..]) == m[65535..] + H.Payload([]);
    assert H.Wire(rs[1..]) == H.WireOne(rs[1]) + H.Wire([]);
    assert H.Payload(rs) == m;
    stream := H.Wire(rs);
    assert stream + [] == stream;
    FragmentedHelloRecognised(hello, rs, []);
    FragmentedHelloWaits(hello, rs, 65537);
    SplitIndependentExactly(stream);
  }

  function Zeros(n: nat): (s: bytes)
    ensures |s| == n
  {
    seq(n, _ => 0)
  }

  // ---------------------------------------------------------------- a connection's whole life

  /** A tunnel, and the target as it was when it was handed to bind, at that time. */
  datatype Bound = Bound(given: T.SocketState, at: nat, tunnel: T.State)

  /**
   * The connection with its client: all bytes the client `sent`, those still `unread` in the socket,
   * those `lost` because the socket flowed with nobody listening, and the tunnel once bound. `conn`
   * stays what it was at bind.
   */
  datatype State = State(conn: Conn, asked: bool, sent: bytes, unread: bytes, lost: bytes, bound: Option<Bound>) {
    function Client(): T.SocketState {
      if bound.Some? then bound.value.tunnel.client else conn.client
    }
  }

  datatype Event =
    | Arrive(chunk: bytes)                 // bytes reach the socket
    | Deliver(count: nat)                  // a data event before bind
    | End(halfOpen: bool)                  // the client's FIN is read before bind
    | Destroy(errored: bool)               // before bind: server.close(), or a socket error
    | WaitSNI
    | Timer
    | Close
    | Bind(target: T.SocketState, idleTimeout: nat, now: nat)
    | Tunnelled(e: T.Event)                // an event of either socket after bind

  const INITIAL: State := State(Accepted(NEW_SOCKET), false, [], [], [], None)

  predicate Enabled(s: State, e: Event) {
    match e
    case Arrive(_) => !s.Client().destroyed && !s.Client().ended
    case Deliver(count) =>
      s.bound.None? && s.conn.flowing && !s.conn.client.destroyed && 0 < count <= |s.unread|
    case End(_) =>
      s.bound.None? && s.conn.flowing && !s.conn.client.destroyed && !s.conn.client.ended && s.unread == []
    case Destroy(_) => s.bound.None? && !s.conn.client.closed
    case WaitSNI => !s.asked && s.bound.None?
    case Timer => s.conn.waiting
    case Close => s.bound.None? && !s.conn.client.closed
    case Bind(target, _, _) => !s.conn.waiting && s.bound.None? && T.Sound(target)
    case Tunnelled(te) =>
      && s.bound.Some? && T.Enabled(s.bound.value.tunnel, te)
      && (te.Data? && te.side.Client? ==> te.chunk <= s.unread)
      && (te.End? && te.side.Client? ==> s.unread == [])
  }

  /** An event that cannot happen changes nothing, so every list of events is a run. */
  function Step(s: State, e: Event): State {
    if !Enabled(s, e) then s
    else
      match e
      case Arrive(chunk) => s.(sent := s.sent + chunk, unread := s.unread + chunk)
      case Deliver(count) =>
        var chunk, s' := s.unread[..count], s.(unread := s.unread[count..]);
        if s.conn.waiting then s'.(conn := Listen(s.conn, chunk))
        else s'.(lost := s.lost + chunk)
      case End(halfOpen) =>
        s.(conn := s.conn.(client := T.Finned(s.conn.client.(allowHalfOpen := halfOpen))))
      case Destroy(errored) =>
        s.(conn := s.conn.(client := s.conn.client.(destroyed := true, errored := errored || s.conn.client.errored)))
      case WaitSNI => s.(conn := Ask(s.conn), asked := true)
      case Timer => s.(conn := Expire(s.conn))
      case Close => s.(conn := Closing(s.conn))
      case Bind(target, idleTimeout, now) =>
        var tunnel := T.Start(s.conn.client, T.Flushed(target, s.conn.head, now), idleTimeout, now);
        s.(bound := Some(Bound(target, now, tunnel)))
      case Tunnelled(te) =>
        var s' := s.(bound := Some(s.bound.value.(tunnel := T.Step(s.bound.value.tunnel, te))));
        if te.Data? && te.side.Client? then s'.(unread := s.unread[|te.chunk|..]) else s'
  }

  function Run(es: seq<Event>): State {
    if es == [] then INITIAL else Step(Run(es[..|es| - 1]), es[|es| - 1])
  }

  function Piped(s: State): bytes {
    if s.bound.Some? then s.bound.value.tunnel.client.received else []
  }

  /** Every byte sent is in the head, piped, or unread, and none was dropped. */
  ghost predicate Accounted(s: State) {
    s.sent == s.conn.head + Piped(s) + s.unread && s.lost == [] && (s.Client().ended ==> s.unread == [])
  }

  ghost predicate PromiseKept(s: State) {
    && |s.conn.settled| == (if s.asked && !s.conn.waiting then 1 else 0)
    && (s.conn.waiting ==> s.asked && s.bound.None?
                           && !Ready(s.conn.head) && |s.conn.head| <= 65536)
    && (s.conn.flowing ==> s.conn.waiting || s.conn.client.destroyed) && (s.conn.waiting ==> s.conn.flowing)
    && (TooLarge in s.conn.settled ==> !Ready(s.conn.head) && |s.conn.head| > 65536)
    && (!s.asked ==> s.conn.head == [])
    && (forall h :: Resolved(h) in s.conn.settled ==> Ready(s.conn.head) && h == HostName(s.conn.head))
    && (s.conn.settled != [] && !s.conn.settled[0].Resolved? ==> s.conn.client.destroyed)
  }

  ghost predicate TunnelKept(b: Bound, conn: Conn) {
    T.Sound(b.given) && T.Inv(b.tunnel, conn.client, T.Flushed(b.given, conn.head, b.at))
  }

  ghost predicate Inv(s: State) {
    && Accounted(s) && PromiseKept(s) && T.Sound(s.conn.client)
    && (s.bound.Some? ==> TunnelKept(s.bound.value, s.conn))
  }

  lemma PipedStep(s: State, te: T.Event)
    requires Accounted(s) && Enabled(s, Tunnelled(te))
    ensures Accounted(Step(s, Tunnelled(te)))
  {
    if te.Data? && te.side.Client? {
      assert s.unread == te.chunk + s.unread[|te.chunk|..];
      Assoc(s.conn.head + Piped(s), te.chunk, s.unread[|te.chunk|..]);
      Assoc(s.conn.head, Piped(s), te.chunk);
    }
  }

  lemma DeliverStep(s: State, count: nat)
    requires Accounted(s) && PromiseKept(s) && Enabled(s, Deliver(count))
    ensures Accounted(Step(s, Deliver(count)))
  {
    assert s.unread == s.unread[..count] + s.unread[count..];
    Assoc(s.conn.head, s.unread[..count], s.unread[count..]);
  }

  lemma {:induction false} StepAccounted(s: State, e: Event)
    requires Accounted(s) && PromiseKept(s)
    ensures Accounted(Step(s, e))
  {
    if !Enabled(s, e) { return; }
    match e
    case Arrive(chunk) => Assoc(s.conn.head + Piped(s), s.unread, chunk);
    case Deliver(count) => DeliverStep(s, count);
    case Tunnelled(te) => PipedStep(s, te);
    case _ =>
  }

  lemma {:induction false} StepPromise(s: State, e: Event)
    requires PromiseKept(s)
    ensures PromiseKept(Step(s, e))
  {
  }

  lemma {:induction false} StepTunnel(s: State, e: Event)
    requires s.bound.Some? ==> TunnelKept(s.bound.value, s.conn)
    requires PromiseKept(s) && T.Sound(s.conn.client)
    ensures var s' := Step(s, e); T.Sound(s'.conn.client) && (s'.bound.Some? ==> TunnelKept(s'.bound.value, s'.conn))
  {
    if !Enabled(s, e) { return; }
    if e.Tunnelled? {
      var b := s.bound.value;
      T.StepInv(b.tunnel, e.e, s.conn.client, T.Flushed(b.given, s.conn.head, b.at));
    } else if e.Bind? {
      T.StartInv(s.conn.client, T.Flushed(e.target, s.conn.head, e.now), e.idleTimeout, e.now);
    }
  }

  lemma {:induction false} RunInv(es: seq<Event>)
    ensures Inv(Run(es))
    decreases |es|
  {
    if es != [] {
      var s, e := Run(es[..|es| - 1]), es[|es| - 1];
      RunInv(es[..|es| - 1]);
      StepAccounted(s, e);
      StepPromise(s, e);
      StepTunnel(s, e);
    }
  }

  /** The bytes that reached the client's socket. */
  function Arrived(es: seq<Event>): bytes {
    if es == [] then []
    else
      var init, e := es[..|es| - 1], es[|es| - 1];
      Arrived(init) + (if e.Arrive? && Enabled(Run(init), e) then e.chunk else [])
  }

  lemma {:induction false} SentIsArrived(es: seq<Event>)
    ensures Run(es).sent == Arrived(es)
    decreases |es|
  {
    if es != [] {
      SentIsArrived(es[..|es| - 1]);
    }
  }

  /**
   * Stream preservation over all runs, whatever state client and target are in at bind: nothing the
   * client sent is ever lost before it; after what it had been written before, the target is written
   * (the head, then piped bytes) a prefix of what the client sent, and all of it but the unread bytes
   * while the target stands or once the tunnel ended it. Once the client's FIN is read nothing is unread.
   * The client's FIN ends the target, and so does its close, unless bind came after it.
   */
  lemma {:induction false} StreamPreserved(es: seq<Event>)
    ensures var s := Run(es);
            && s.sent == Arrived(es) && s.lost == []
            && (s.bound.None? ==> s.sent == s.conn.head + s.unread)
            && (s.Client().ended ==> s.unread == [])
            && (s.bound.Some? ==>
                  var given, target := s.bound.value.given, s.bound.value.tunnel.target;
                  && given.written <= target.written <= given.written + s.sent
                  && (!target.destroyed || (target.finished && !given.finished)
                      ==> given.written + s.sent == target.written + s.unread)
                  && (s.Client().ended || (s.Client().closed && !T.Missed(s.conn.client)) ==> T.Down(target)))
  {
    RunInv(es);
    SentIsArrived(es);
    var s := Run(es);
    if s.bound.Some? {
      TargetHasStream(s);
    }
  }

  lemma TargetHasStream(s: State)
    requires Inv(s) && s.bound.Some?
    ensures var given, target := s.bound.value.given, s.bound.value.tunnel.target;
            && given.written <= target.written <= given.written + s.sent
            && (!target.destroyed || (target.finished && !given.finished)
                ==> given.written + s.sent == target.written + s.unread)
  {
    var b := s.bound.value;
    var prepared := T.Flushed(b.given, s.conn.head, b.at);
    if T.Down(b.given) && s.conn.head != [] {
      assert prepared.destroyed && b.tunnel.target.written == b.given.written;
    } else {
      assert prepared.written == b.given.written + s.conn.head;
      Assoc(b.given.written, s.conn.head, Piped(s));
      Assoc(b.given.written, s.conn.head + Piped(s), s.unread);
    }
  }

  lemma HeadAnswersForSent(s: State)
    requires Inv(s)
    ensures Ready(s.conn.head) ==> Ready(s.sent) && HostName(s.sent) == HostName(s.conn.head)
  {
    assert s.sent == s.conn.head + (Piped(s) + s.unread);
    ReadyMonotone(s.conn.head, Piped(s) + s.unread);
  }

  /**
   * The promise over all runs, with the timer, the close and the data in any order: once waitSNI was
   * called, either it is pending or exactly one of resolve and reject was called, once. An answer is
   * the one for everything the client has sent, a rejection leaves the client destroyed and names what
   * happened: the timer, the close, or more than 65536 bytes. A promise still pending keeps the client
   * flowing, has seen no complete hello and holds at most 65536 bytes.
   */
  lemma PromiseSettlesOnce(es: seq<Event>)
    ensures var s := Run(es);
            && (s.asked ==> |s.conn.settled| == if s.conn.waiting then 0 else 1)
            && (!s.asked ==> s.conn.settled == [] && !s.conn.waiting)
            && (s.conn.waiting ==> s.conn.flowing && |s.conn.head| <= 65536 && !Ready(s.conn.head))
            && (forall h :: Resolved(h) in s.conn.settled ==> Ready(s.sent) && h == HostName(s.sent))
            && (s.conn.settled != [] && !s.conn.settled[0].Resolved? ==> s.conn.client.destroyed)
            && (s.conn.settled != [] && s.conn.settled[0].Resolved? && !s.conn.client.destroyed ==> !s.conn.flowing)
            && (TimedOut in s.conn.settled ==> Timer in es)
            && (ClosedEarly in s.conn.settled ==> Close in es)
            && (TooLarge in s.conn.settled ==> |s.conn.head| > 65536 && !Ready(s.conn.head))
  {
    RunInv(es);
    RejectionsAreEvents(es);
    HeadAnswersForSent(Run(es));
  }

  lemma {:induction false} RejectionsAreEvents(es: seq<Event>)
    ensures TimedOut in Run(es).conn.settled ==> Timer in es
    ensures ClosedEarly in Run(es).conn.settled ==> Close in es
    decreases |es|
  {
    if es != [] {
      RejectionsAreEvents(es[..|es| - 1]);
      assert es == es[..|es| - 1] + [es[|es| - 1]];
    }
  }

  // ---------------------------------------------------------------- a close before bind

  lemma RunAppend(es: seq<Event>, e: Event)
    ensures Run(es + [e]) == Step(Run(es), e)
  {
    assert (es + [e])[..|es|] == es;
  }

  /** No tunnel event that takes the target down for reasons of its own. */
  predicate Spares(e: Event) {
    e.Tunnelled? ==> T.Spares(e.e, T.Target)
  }

  ghost predicate Leaked(s: State, target: T.SocketState) {
    && s.bound.Some?
    && var tunnel := s.bound.value.tunnel;
       && T.Stranded(tunnel, T.Client) && tunnel.client.received == []
       && tunnel.target.written == target.written + s.conn.head
  }

  lemma BindLeaks(s: State, target: T.SocketState, idleTimeout: nat, now: nat)
    requires !s.conn.waiting && s.bound.None? && T.Missed(s.conn.client)
    requires T.Sound(target) && !T.Down(target)
    ensures Leaked(Step(s, Bind(target, idleTimeout, now)), target)
  {
  }

  lemma StepLeaked(s: State, e: Event, target: T.SocketState)
    requires Inv(s) && Leaked(s, target) && Spares(e)
    ensures Leaked(Step(s, e), target)
  {
    if Enabled(s, e) && e.Tunnelled? {
      var tunnel := s.bound.value.tunnel;
      T.StepStranded(tunnel, e.e, T.Client);
    }
  }

  /**
   * A client that closed without a FIN before bind strands the target: it gets the head and no more,
   * and in every run it is neither ended nor destroyed until an error, an idle timer or someone else does it.
   */
  lemma {:induction false} MissedCloseStrandsTarget(
      es: seq<Event>, target: T.SocketState, idleTimeout: nat, now: nat, more: seq<Event>)
    requires var s := Run(es); !s.conn.waiting && s.bound.None? && T.Missed(s.conn.client)
    requires T.Sound(target) && !T.Down(target)
    requires forall i :: 0 <= i < |more| ==> Spares(more[i])
    ensures Leaked(Run(es + [Bind(target, idleTimeout, now)] + more), target)
    decreases |more|
  {
    var bind := es + [Bind(target, idleTimeout, now)];
    if more == [] {
      RunAppend(es, Bind(target, idleTimeout, now));
      BindLeaks(Run(es), target, idleTimeout, now);
      assert bind + more == bind;
    } else {
      var init, e := more[..|more| - 1], more[|more| - 1];
      MissedCloseStrandsTarget(es, target, idleTimeout, now, init);
      RunInv(bind + init);
      StepLeaked(Run(bind + init), e, target);
      RunAppend(bind + init, e);
      assert bind + more == bind + init + [e];
    }
  }

  /** Such runs exist: any client whose hello was answered may close before the target is there. */
  lemma MissedCloseExists(hello: bytes)
    requires Ready(hello)
    ensures var s := Run([WaitSNI, Arrive(hello), Deliver(|hello|), Close]);
            && s.conn.settled == [Resolved(HostName(hello))] && s.conn.head == hello
            && !s.conn.waiting && s.bound.None? && T.Missed(s.conn.client)
  {
    assert [] + hello == hello && hello[..|hello|] == hello;
    RunAppend([], WaitSNI);
    assert [] + [WaitSNI] == [WaitSNI];
    RunAppend([WaitSNI], Arrive(hello));
    RunAppend([WaitSNI, Arrive(hello)], Deliver(|hello|));
    RunAppend([WaitSNI, Arrive(hello), Deliver(|hello|)], Close);
    var asked := INITIAL.(conn := Ask(INITIAL.conn), asked := true);
    assert Run([WaitSNI]) == asked;
    var arrived := asked.(sent := hello, unread := hello);
    assert Run([WaitSNI] + [Arrive(hello)]) == arrived;
    AnsweredAtOnce(arrived, hello);
    assert [WaitSNI] + [Arrive(hello)] + [Deliver(|hello|)] + [Close]
           == [WaitSNI, Arrive(hello), Deliver(|hello|), Close];
  }

  lemma AnsweredAtOnce(s: State, hello: bytes)
    requires Ready(hello) && s.unread == hello && s.conn == Ask(Accepted(NEW_SOCKET)) && s.bound.None?
    ensures var s' := Step(s, Deliver(|hello|));
            && s'.conn.settled == [Resolved(HostName(hello))] && s'.conn.head == hello && s'.bound.None?
            && !s'.conn.waiting && s'.conn.client == NEW_SOCKET
  {
    assert [] + hello == hello && hello[..|hello|] == hello;
  }
}
