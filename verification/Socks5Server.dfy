/**
 * The SOCKS5 server's handshake (src/proxy/server/socks5/index.js; sections 3, 4 and 6 of RFC 1928
 * and section 2 of RFC 1929): many sockets, each a chain of one-shot listeners and a promise,
 * interleaved with timers, closes and the application.
 */
module Socks5Server {
  import opened Bytes
  import opened Authentication
  import opened Socks5Messages
  import T = Tunnel

  const AUTH_NONE: byte := 0
  const AUTH_USERPASS: byte := 2
  const AUTH_NO_ACCEPTABLE: byte := 0xFF

  type Id = nat

  /** How the promise returned by authenticate settles; without authenticate it answers Valid. */
  datatype Answer = Valid | Invalid | Rejected

  /** What a socket waits for: a chunk for one of the once-listeners, a promise, or nothing. */
  datatype Phase =
    | Greeting
    | SubNegotiation
    | Checking(credentials: Option<Credentials>)
    | Request
    | Idle

  /**
   * One accepted socket. `sent` lists the handshake messages written to it, `ended` says that its FIN
   * was read, `connection` is the destination once "connection" was emitted, `closes` counts the
   * server's "close" events for it, `replies` counts bind and error calls whose reply was really written.
   */
  datatype Session = Session(
    phase: Phase, auth: Option<Credentials>, offered: seq<byte>, sent: seq<bytes>,
    ended: bool, finished: bool, destroyed: bool, closed: bool,
    connection: Option<Address>, bound: bool, replies: nat, closes: nat)

  datatype State = State(sessions: map<Id, Session>, handshaking: set<Id>, connections: set<Id>)

  datatype Event =
    | Accept(id: Id)
    | Data(id: Id, chunk: bytes)
    | End(id: Id, halfOpen: bool)        // the client's FIN; the socket ends itself unless it is half-open
    | Answered(id: Id, answer: Answer)
    | HandshakeTimer(id: Id)
    | Destroyed(id: Id)                  // a socket error, or a tunnel taking the socket down
    | Close(id: Id)
    | ServerClose
    | Bind(id: Id)
    | Fail(id: Id)                       // connection.error()
    | Finish(id: Id)                     // connection.end(), or a tunnel ending the socket

  // ---------------------------------------------------------------- one socket

  const NEW_SESSION: Session :=
    Session(Greeting, None, [], [], false, false, false, false, None, false, 0, 0)

  /** end() was called on the socket, or it is destroyed. */
  predicate Down(s: Session) {
    s.finished || s.destroyed
  }

  /** A write is dropped by a destroyed socket; a write after end() destroys the socket. */
  function Wrote(s: Session, m: bytes): Session {
    s.(sent := if Down(s) then s.sent else s.sent + [m], destroyed := Down(s))
  }

  function Ended(s: Session): Session {
    s.(finished := s.finished || !s.destroyed)
  }

  function Finned(s: Session, halfOpen: bool): Session {
    s.(ended := true, finished := s.finished || (!halfOpen && !s.destroyed))
  }

  function Refused(s: Session, m: bytes): Session {
    Ended(Wrote(s.(phase := Idle), m))
  }

  /** The methods of a greeting: as many as announced, or as there are. */
  function Offered(greeting: bytes): seq<byte> {
    if |greeting| < 2 then [] else greeting[2..Min(2 + greeting[1] as int, |greeting|)]
  }

  function Choice(methods: seq<byte>): byte {
    if AUTH_USERPASS in methods then AUTH_USERPASS
    else if AUTH_NONE in methods then AUTH_NONE
    else AUTH_NO_ACCEPTABLE
  }

  function Chosen(s: Session, choice: byte, authenticate: bool): Session {
    if choice == AUTH_USERPASS then Wrote(s, [SOCKS_VERSION, choice]).(phase := SubNegotiation)
    else if choice == AUTH_NONE then
      Wrote(s, [SOCKS_VERSION, choice]).(phase := if authenticate then Checking(None) else Request)
    else Refused(s, [SOCKS_VERSION, choice])
  }

  function Greeted(s: Session, greeting: bytes, authenticate: bool): Session
    requires greeting != []
  {
    if greeting[0] != SOCKS_VERSION then Ended(s.(phase := Idle))
    else
      var methods := Offered(greeting);
      Chosen(s.(offered := methods), Choice(methods), authenticate)
  }

  function Negotiated(s: Session, data: bytes): Session {
    match AuthIn(data)
    case None => Refused(s, [1, 1])
    case Some(c) => s.(phase := Checking(Some(c)))
  }

  function Settled(s: Session, credentials: Option<Credentials>, answer: Answer): Session {
    match answer
    case Valid =>
      if credentials.Some? then Wrote(s.(auth := credentials, phase := Request), [1, 0])
      else s.(phase := Request)
    case Invalid => if credentials.Some? then Refused(s, [1, 1]) else Ended(s.(phase := Idle))
    case Rejected => Ended(s.(phase := Idle))
  }

  function Destined(s: Session, address: Option<Address>): Session {
    match address
    case None => Refused(s, BuildReply(1))
    case Some(_) => s.(phase := Idle, connection := address)
  }

  function Requested(s: Session, data: bytes): Session {
    if |data| < 2 || data[1] != CMD_CONNECT then Refused(s, BuildReply(7)) else Destined(s, AddressIn(data))
  }

  /** A chunk goes to the once-listener in place; while a promise is pending there is none. */
  function Heard(s: Session, chunk: bytes, authenticate: bool): Session
    requires chunk != []
  {
    match s.phase
    case Greeting => Greeted(s, chunk, authenticate)
    case SubNegotiation => Negotiated(s, chunk)
    case Request => Requested(s, chunk)
    case Checking(_) => s
    case Idle => s
  }

  function Replied(s: Session, rep: byte): Session {
    Wrote(s, BuildReply(rep)).(replies := if Down(s) then s.replies else s.replies + 1)
  }

  // ---------------------------------------------------------------- the server

  predicate Enabled(st: State, e: Event, authenticate: bool) {
    match e
    case Accept(id) => id !in st.sessions
    case Data(id, chunk) =>
      id in st.sessions && chunk != [] && !st.sessions[id].destroyed && !st.sessions[id].ended
    case End(id, _) => id in st.sessions && !st.sessions[id].destroyed && !st.sessions[id].ended
    case Answered(id, answer) =>
      id in st.sessions && st.sessions[id].phase.Checking? && (!authenticate ==> answer.Valid?)
    case HandshakeTimer(id) =>
      id in st.sessions && !st.sessions[id].closed && st.sessions[id].connection.None?
    case Destroyed(id) => id in st.sessions
    case Close(id) => id in st.sessions && !st.sessions[id].closed
    case ServerClose => true
    case Bind(id) => id in st.sessions && st.sessions[id].connection.Some?
    case Fail(id) => id in st.sessions && st.sessions[id].connection.Some?
    case Finish(id) => id in st.sessions && st.sessions[id].connection.Some?
  }

  function Put(st: State, id: Id, s: Session): State {
    st.(sessions := st.sessions[id := s])
  }

  function DestroyAll(sessions: map<Id, Session>, ids: set<Id>): map<Id, Session> {
    map id | id in sessions :: if id in ids then sessions[id].(destroyed := true) else sessions[id]
  }

  predicate Concerns(e: Event, id: Id) {
    !e.ServerClose? && e.id == id
  }

  /** What an event does to the session it concerns. */
  function Moved(s: Session, e: Event, authenticate: bool): Session
    requires (e.Data? ==> e.chunk != []) && (e.Answered? ==> s.phase.Checking?)
  {
    match e
    case Accept(_) => s
    case Data(_, chunk) => Heard(s, chunk, authenticate)
    case End(_, halfOpen) => Finned(s, halfOpen)
    case Answered(_, answer) => Settled(s, s.phase.credentials, answer)
    case HandshakeTimer(_) => s.(destroyed := true)
    case Destroyed(_) => s.(destroyed := true)
    case Close(_) =>
      s.(destroyed := true, closed := true, closes := if s.connection.Some? then s.closes + 1 else s.closes)
    case ServerClose => s.(destroyed := true)
    case Bind(_) => Replied(s, 0).(bound := true)
    case Fail(_) => Ended(Replied(s, 1))
    case Finish(_) => Ended(s)
  }

  /** An event that cannot happen changes nothing, so every list of events is a run. */
  function Step(st: State, e: Event, authenticate: bool): State {
    if !Enabled(st, e, authenticate) then st
    else
      match e
      case Accept(id) => Put(st, id, NEW_SESSION).(handshaking := st.handshaking + {id})
      case ServerClose => State(DestroyAll(st.sessions, st.handshaking + st.connections), {}, {})
      case Close(id) =>
        var s := st.sessions[id];
        Put(st, id, Moved(s, e, authenticate))
          .(handshaking := st.handshaking - {id},
            connections := if s.connection.Some? then st.connections - {id} else st.connections)
      case _ =>
        var s, id := st.sessions[e.id], e.id;
        var s' := Moved(s, e, authenticate);
        if s.connection.None? && s'.connection.Some? then
          Put(st, id, s').(handshaking := st.handshaking - {id}, connections := st.connections + {id})
        else Put(st, id, s')
  }

  const INITIAL: State := State(map[], {}, {})

  function Run(es: seq<Event>, authenticate: bool): State {
    if es == [] then INITIAL else Step(Run(es[..|es| - 1], authenticate), es[|es| - 1], authenticate)
  }

  // ---------------------------------------------------------------- the books

  ghost predicate Booked(st: State, id: Id)
    requires id in st.sessions
  {
    var s := st.sessions[id];
    && (id in st.handshaking ==> s.connection.None? && !s.closed)
    && (id in st.connections ==> s.connection.Some? && !s.closed)
    && (!s.destroyed ==> id in st.handshaking || id in st.connections)
    && (s.closed ==> s.destroyed)
    && (s.connection.Some? ==> s.phase.Idle?)
    && s.closes == (if s.closed && s.connection.Some? then 1 else 0)
  }

  ghost predicate Books(st: State) {
    && st.handshaking + st.connections <= st.sessions.Keys
    && forall id :: id in st.sessions ==> Booked(st, id)
  }

  ghost predicate SameLife(s: Session, r: Session) {
    && r.closed == s.closed && (s.destroyed ==> r.destroyed) && r.closes == s.closes
    && r.auth == s.auth && r.replies == s.replies && r.bound == s.bound
  }

  lemma ChosenKeeps(s: Session, choice: byte, authenticate: bool)
    ensures var r := Chosen(s, choice, authenticate);
            SameLife(s, r) && r.connection == s.connection
            && (r.phase.Checking? ==> r.phase.credentials.None?)
            && (r.phase.Request? ==> !authenticate)
  {
  }

  lemma GreetedKeeps(s: Session, chunk: bytes, authenticate: bool)
    requires chunk != []
    ensures var r := Greeted(s, chunk, authenticate);
            SameLife(s, r) && r.connection == s.connection
            && (r.phase.Checking? ==> r.phase.credentials.None?)
            && (r.phase.Request? ==> !authenticate)
  {
    ChosenKeeps(s.(offered := Offered(chunk)), Choice(Offered(chunk)), authenticate);
  }

  lemma NegotiatedKeeps(s: Session, chunk: bytes)
    ensures var r := Negotiated(s, chunk);
            SameLife(s, r) && r.connection == s.connection
            && r.phase == match AuthIn(chunk) case None => Idle case Some(c) => Checking(Some(c))
  {
  }

  lemma RefusedKeeps(s: Session, m: bytes)
    ensures var r := Refused(s, m); SameLife(s, r) && r.phase.Idle? && r.connection == s.connection
  {
  }

  lemma RequestedKeeps(s: Session, chunk: bytes)
    ensures var r := Requested(s, chunk); SameLife(s, r) && r.phase.Idle?
  {
    RefusedKeeps(s, BuildReply(7));
    RefusedKeeps(s, BuildReply(1));
  }

  /** A chunk never touches the socket's lifecycle, nor anything once the connection was emitted. */
  lemma {:induction false} HeardKeeps(s: Session, chunk: bytes, authenticate: bool)
    requires chunk != [] && (s.connection.Some? ==> s.phase.Idle?)
    ensures var r := Heard(s, chunk, authenticate);
            && SameLife(s, r)
            && (s.connection.Some? ==> r == s)
            && (r.connection.Some? ==> r.phase.Idle?)
            && (s.connection.None? && r.connection.Some? ==> s.phase.Request?)
  {
    match s.phase
    case Greeting => GreetedKeeps(s, chunk, authenticate);
    case SubNegotiation => NegotiatedKeeps(s, chunk);
    case Request => RequestedKeeps(s, chunk);
    case Checking(_) =>
    case Idle =>
  }

  lemma SettledKeeps(s: Session, credentials: Option<Credentials>, answer: Answer)
    ensures var r := Settled(s, credentials, answer);
            && r.closed == s.closed && (s.destroyed ==> r.destroyed) && r.closes == s.closes
            && r.connection == s.connection && r.replies == s.replies && r.bound == s.bound
  {
  }

  lemma StepAt(st: State, e: Event, authenticate: bool, id: Id)
    requires id in st.sessions && Enabled(st, e, authenticate)
    ensures var s, st' := st.sessions[id], Step(st, e, authenticate);
            && id in st'.sessions
            && st'.sessions[id] == (if Concerns(e, id) then Moved(s, e, authenticate)
                                    else if e.ServerClose? && (id in st.handshaking || id in st.connections)
                                    then s.(destroyed := true) else s)
  {
  }

  /** An event lets a session live as it did, except where it says otherwise. */
  lemma {:induction false} MovedLife(s: Session, e: Event, authenticate: bool)
    requires (e.Data? ==> e.chunk != []) && (e.Answered? ==> s.phase.Checking?)
    requires s.connection.Some? ==> s.phase.Idle?
    ensures var r := Moved(s, e, authenticate);
            && (s.destroyed || e.Close? ==> r.destroyed) && (r.closed <==> s.closed || e.Close?)
            && (s.connection.Some? ==> r.connection == s.connection)
            && (r.connection.Some? ==> r.phase.Idle?)
            && (s.connection.None? && r.connection.Some? ==> e.Data? && s.phase.Request?)
            && r.closes == s.closes + (if e.Close? && s.connection.Some? then 1 else 0)
            && r.replies == s.replies + (if (e.Bind? || e.Fail?) && !Down(s) then 1 else 0)
            && (r.bound <==> s.bound || e.Bind?)
  {
    match e
    case Data(_, chunk) => HeardKeeps(s, chunk, authenticate);
    case Answered(_, answer) => SettledKeeps(s, s.phase.credentials, answer);
    case _ =>
  }

  lemma {:induction false} StepBooked(st: State, e: Event, authenticate: bool, id: Id)
    requires Books(st) && id in st.sessions
    ensures Booked(Step(st, e, authenticate), id)
  {
    assert Booked(st, id);
    if Enabled(st, e, authenticate) {
      StepAt(st, e, authenticate, id);
      if Concerns(e, id) {
        MovedLife(st.sessions[id], e, authenticate);
      }
    }
  }

  lemma {:induction false} StepBooks(st: State, e: Event, authenticate: bool)
    requires Books(st)
    ensures Books(Step(st, e, authenticate))
  {
    var st' := Step(st, e, authenticate);
    forall id | id in st'.sessions
      ensures Booked(st', id)
    {
      if id in st.sessions {
        StepBooked(st, e, authenticate, id);
      }
    }
  }

  lemma {:induction false} RunBooks(es: seq<Event>, authenticate: bool)
    ensures Books(Run(es, authenticate))
    decreases |es|
  {
    if es != [] {
      RunBooks(es[..|es| - 1], authenticate);
      StepBooks(Run(es[..|es| - 1], authenticate), es[|es| - 1], authenticate);
    }
  }

  /**
   * Bookkeeping over all runs: no socket is in both sets, every socket still standing is in one of them,
   * by whether it is a connection yet, and no closed one is in either; and the server's "close" was
   * emitted once for each connection that closed, and for no other socket.
   */
  lemma {:induction false} SetsPartitionSockets(es: seq<Event>, authenticate: bool)
    ensures var st := Run(es, authenticate);
            && st.handshaking !! st.connections
            && (forall id :: id in st.sessions && !st.sessions[id].destroyed
                             ==> (id in st.handshaking <==> id !in st.connections))
            && (forall id :: id in st.sessions && id in st.handshaking ==> st.sessions[id].connection.None?)
            && (forall id :: id in st.sessions && id in st.connections ==> st.sessions[id].connection.Some?)
            && (forall id :: id in st.sessions && st.sessions[id].closed
                             ==> id !in st.handshaking && id !in st.connections && st.sessions[id].destroyed)
            && (forall id :: id in st.sessions ==>
                  var s := st.sessions[id]; s.closes == if s.closed && s.connection.Some? then 1 else 0)
  {
    var st := Run(es, authenticate);
    RunBooks(es, authenticate);
    forall id | id in st.sessions
      ensures !(id in st.handshaking && id in st.connections)
    {
      assert Booked(st, id);
    }
  }

  /** close() leaves both sets empty and no accepted socket standing. */
  lemma CloseDestroysAll(es: seq<Event>, authenticate: bool)
    ensures var st := Run(es + [ServerClose], authenticate);
            && st.handshaking == {} && st.connections == {}
            && forall id :: id in st.sessions ==> st.sessions[id].destroyed
  {
    var st := Run(es, authenticate);
    RunBooks(es, authenticate);
    assert (es + [ServerClose])[..|es|] == es;
    forall id | id in st.sessions
      ensures Step(st, ServerClose, authenticate).sessions[id].destroyed
    {
      assert Booked(st, id);
    }
  }

  // ---------------------------------------------------------------- the code

  class Server {
    const authenticate: bool
    var sessions: map<Id, Session>
    var handshaking: set<Id>
    var connections: set<Id>

    ghost function View(): State
      reads this
    {
      State(sessions, handshaking, connections)
    }

    ghost predicate Valid()
      reads this
    {
      Books(View())
    }

    constructor (authenticate: bool)
      ensures View() == INITIAL && Valid() && this.authenticate == authenticate
    {
      this.authenticate := authenticate;
      sessions, handshaking, connections := map[], {}, {};
    }

    method OnConnection(id: Id)
      requires Valid() && Enabled(View(), Accept(id), authenticate)
      modifies this
      ensures Valid() && View() == Step(old(View()), Accept(id), authenticate)
    {
      StepBooks(View(), Accept(id), authenticate);
      sessions := sessions[id := NEW_SESSION];
      handshaking := handshaking + {id};
    }

    method CollectMethods(greeting: bytes) returns (methods: seq<byte>)
      ensures methods == Offered(greeting)
    {
      var nmethods: nat := if |greeting| > 1 then greeting[1] else 0;
      methods := [];
      for i := 0 to nmethods
        invariant methods == Offered(greeting)[..Min(i, |Offered(greeting)|)]
      {
        // a read past the end gives undefined, which is no method
        if 2 + i < |greeting| {
          methods := methods + [greeting[2 + i]];
        }
      }
    }

    /** The greeting listener: collects the offered methods and picks one. */
    method OnGreeting(s: Session, greeting: bytes) returns (r: Session)
      requires greeting != []
      ensures r == Greeted(s, greeting, authenticate)
    {
      if greeting[0] != SOCKS_VERSION {
        return Ended(s.(phase := Idle));
      }
      var methods := CollectMethods(greeting);
      r := s.(phase := Idle, offered := methods);
      if AUTH_USERPASS in methods {
        r := Wrote(r, [SOCKS_VERSION, AUTH_USERPASS]);
        r := r.(phase := SubNegotiation);
      } else if AUTH_NONE in methods {
        r := Wrote(r, [SOCKS_VERSION, AUTH_NONE]);
        r := r.(phase := if authenticate then Checking(None) else Request);
      } else {
        r := Wrote(r, [SOCKS_VERSION, AUTH_NO_ACCEPTABLE]);
        r := Ended(r);
      }
      assert r == Chosen(s.(offered := methods), Choice(methods), authenticate);
    }

    method OnRequest(s: Session, data: bytes) returns (r: Session)
      ensures r == Requested(s, data)
    {
      r := s.(phase := Idle);
      if |data| < 2 || data[1] != CMD_CONNECT {
        r := Ended(Wrote(r, BuildReply(7)));
        return;
      }
      var address := ParseAddress(data);
      if address.None? {
        r := Ended(Wrote(r, BuildReply(1)));
        return;
      }
      r := r.(connection := address);
    }

    method OnData(id: Id, chunk: bytes)
      requires Valid() && Enabled(View(), Data(id, chunk), authenticate)
      modifies this
      ensures Valid() && View() == Step(old(View()), Data(id, chunk), authenticate)
    {
      StepBooks(View(), Data(id, chunk), authenticate);
      assert Booked(View(), id);
      var s := sessions[id];
      match s.phase
      case Greeting =>
        s := OnGreeting(s, chunk);
        sessions := sessions[id := s];
      case SubNegotiation =>
        var credentials := AuthIn(chunk);
        s := if credentials.None? then Ended(Wrote(s.(phase := Idle), [1, 1]))
             else s.(phase := Checking(credentials));
        sessions := sessions[id := s];
      case Request =>
        s := OnRequest(s, chunk);
        sessions := sessions[id := s];
        if s.connection.Some? {
          handshaking := handshaking - {id};
          connections := connections + {id};
        }
      case Checking(_) => assert sessions == sessions[id := s];
      case Idle => assert sessions == sessions[id := s];
    }

    method OnEnd(id: Id, halfOpen: bool)
      requires Valid() && Enabled(View(), End(id, halfOpen), authenticate)
      modifies this`sessions
      ensures Valid() && View() == Step(old(View()), End(id, halfOpen), authenticate)
    {
      StepBooks(View(), End(id, halfOpen), authenticate);
      var s := sessions[id].(ended := true);
      if !halfOpen {
        s := Ended(s);
      }
      sessions := sessions[id := s];
    }

    /** The continuation of the authenticate promise. */
    method OnAnswer(id: Id, answer: Answer)
      requires Valid() && Enabled(View(), Answered(id, answer), authenticate)
      modifies this`sessions
      ensures Valid() && View() == Step(old(View()), Answered(id, answer), authenticate)
    {
      StepBooks(View(), Answered(id, answer), authenticate);
      var s := sessions[id];
      var credentials := s.phase.credentials;
      s := s.(phase := Idle);
      match answer {
        case Valid =>
          if credentials.Some? {
            s := s.(auth := credentials);
            s := Wrote(s, [1, 0]);
          }
          s := s.(phase := Request);
        case Invalid =>
          if credentials.Some? {
            s := Wrote(s, [1, 1]);
          }
          s := Ended(s);
        case Rejected =>
          s := Ended(s);
      }
      sessions := sessions[id := s];
    }

    method Destroy(id: Id)
      requires id in sessions
      modifies this`sessions
      ensures sessions == old(sessions)[id := old(sessions)[id].(destroyed := true)]
    {
      sessions := sessions[id := sessions[id].(destroyed := true)];
    }

    method OnHandshakeTimer(id: Id)
      requires Valid() && Enabled(View(), HandshakeTimer(id), authenticate)
      modifies this`sessions
      ensures Valid() && View() == Step(old(View()), HandshakeTimer(id), authenticate)
    {
      StepBooks(View(), HandshakeTimer(id), authenticate);
      Destroy(id);
    }

    method OnClose(id: Id)
      requires Valid() && Enabled(View(), Close(id), authenticate)
      modifies this
      ensures Valid() && View() == Step(old(View()), Close(id), authenticate)
    {
      StepBooks(View(), Close(id), authenticate);
      var s := sessions[id].(destroyed := true, closed := true);
      handshaking := handshaking - {id};
      if s.connection.Some? {
        connections := connections - {id};
        s := s.(closes := s.closes + 1);
      }
      sessions := sessions[id := s];
    }

    /** The forEach loops of close(). */
    method DestroyEach(ids: set<Id>)
      requires ids <= sessions.Keys
      modifies this`sessions
      ensures sessions == DestroyAll(old(sessions), ids)
    {
      var todo := ids;
      while todo != {}
        invariant todo <= ids
        invariant sessions == DestroyAll(old(sessions), ids - todo)
        decreases |todo|
      {
        var id :| id in todo;
        Destroy(id);
        todo := todo - {id};
      }
    }

    method CloseServer()
      requires Valid()
      modifies this
      ensures Valid() && View() == Step(old(View()), ServerClose, authenticate)
    {
      StepBooks(View(), ServerClose, authenticate);
      DestroyEach(handshaking);
      handshaking := {};
      DestroyEach(connections);
      connections := {};
    }

    /** bind(): the success reply goes to the client first, before anything the tunnel carries. */
    method BindConnection(id: Id, clientSocket: T.Socket, socket: T.Socket, idleTimeout: nat, now: nat)
        returns (tunnel: T.Tunnel)
      requires Valid() && Enabled(View(), Bind(id), authenticate) && clientSocket != socket
      requires clientSocket.finished == sessions[id].finished && clientSocket.destroyed == sessions[id].destroyed
      modifies this`sessions, clientSocket, socket
      ensures Valid() && View() == Step(old(View()), Bind(id), authenticate)
      ensures tunnel.Valid() && tunnel.clientSocket == clientSocket && tunnel.socket == socket
      ensures tunnel.View() == T.Start(T.Wrote(old(clientSocket.View()), [5, 0, 0, 1, 0, 0, 0, 0, 0, 0], now),
                                       old(socket.View()), idleTimeout, now)
    {
      ReplySuccess(id);
      clientSocket.Write(BuildReply(0), now);
      tunnel := new T.Tunnel(clientSocket, socket, idleTimeout, now);
    }

    method ReplySuccess(id: Id)
      requires Valid() && Enabled(View(), Bind(id), authenticate)
      modifies this`sessions
      ensures Valid() && View() == Step(old(View()), Bind(id), authenticate)
    {
      StepBooks(View(), Bind(id), authenticate);
      var s := Reply(sessions[id], 0);
      sessions := sessions[id := s.(bound := true)];
    }

    /** clientSocket.write(buildReply(rep)) */
    method Reply(s: Session, rep: byte) returns (r: Session)
      ensures r == Replied(s, rep)
    {
      r := s;
      if r.destroyed {
        return;
      }
      if r.finished {
        r := r.(destroyed := true);
      } else {
        r := r.(sent := r.sent + [BuildReply(rep)], replies := r.replies + 1);
      }
    }

    method FailConnection(id: Id)
      requires Valid() && Enabled(View(), Fail(id), authenticate)
      modifies this`sessions
      ensures Valid() && View() == Step(old(View()), Fail(id), authenticate)
    {
      StepBooks(View(), Fail(id), authenticate);
      var s := Reply(sessions[id], 1);
      sessions := sessions[id := Ended(s)];
    }

    method EndConnection(id: Id)
      requires Valid() && Enabled(View(), Finish(id), authenticate)
      modifies this`sessions
      ensures Valid() && View() == Step(old(View()), Finish(id), authenticate)
    {
      StepBooks(View(), Finish(id), authenticate);
      sessions := sessions[id := Ended(sessions[id])];
    }
  }

  // ---------------------------------------------------------------- what the client said

  /** The chunks a socket was given, each at a time when it could still be read. */
  function Chunks(es: seq<Event>, authenticate: bool, id: Id): seq<bytes> {
    if es == [] then []
    else
      var init, e := es[..|es| - 1], es[|es| - 1];
      Chunks(init, authenticate, id)
      + (if e.Data? && e.id == id && Enabled(Run(init, authenticate), e, authenticate) then [e.chunk] else [])
  }

  /** The greeting announces this method: it is among as many bytes as the second one says. */
  ghost predicate Offers(greeting: bytes, m: int) {
    |greeting| > 1 && exists k: nat :: 2 <= k < |greeting| && k < 2 + greeting[1] as int && greeting[k] as int == m
  }

  lemma OfferedIsAnnounced(greeting: bytes, m: byte)
    ensures m in Offered(greeting) <==> Offers(greeting, m)
  {
    if |greeting| > 1 {
      var methods := Offered(greeting);
      forall k: nat | 2 <= k < |greeting| && k < 2 + greeting[1] as int && greeting[k] == m
        ensures m in methods
      {
        assert methods[k - 2] == greeting[k];
      }
      if m in methods {
        var i :| 0 <= i < |methods| && methods[i] == m;
        assert greeting[i + 2] == m;
      }
    }
  }

  /** The first chunk is the greeting, and its methods are the ones that count. */
  ghost predicate Introduced(s: Session, cs: seq<bytes>) {
    && (s.phase.Greeting? <==> cs == [])
    && (cs != [] ==> cs[0] != [])
    && (cs == [] ==> s.connection.None? && s.sent == [])
    && (cs != [] && cs[0][0] == 5 ==> s.offered == Offered(cs[0]))
    && (cs != [] && cs[0][0] != 5 ==> s.phase.Idle? && s.connection.None? && s.sent == [])
  }

  lemma {:induction false} MovedOffer(s: Session, e: Event, authenticate: bool)
    requires (e.Data? ==> e.chunk != []) && (e.Answered? ==> s.phase.Checking?) && !s.phase.Greeting?
    ensures var r := Moved(s, e, authenticate); r.offered == s.offered && !r.phase.Greeting?
  {
    match e
    case Data(_, chunk) => HeardOffer(s, chunk, authenticate);
    case _ =>
  }

  lemma HeardOffer(s: Session, chunk: bytes, authenticate: bool)
    requires chunk != [] && !s.phase.Greeting?
    ensures var r := Heard(s, chunk, authenticate); r.offered == s.offered && !r.phase.Greeting?
  {
    match s.phase
    case SubNegotiation =>
      RefusedOffer(s, [1, 1]);
    case Request =>
      RefusedOffer(s, BuildReply(7));
      RefusedOffer(s, BuildReply(1));
    case _ =>
  }

  lemma RefusedOffer(s: Session, m: bytes)
    ensures Refused(s, m).offered == s.offered && Refused(s, m).phase.Idle?
  {
  }

  /** Without anything said, or after a wrong version, only the socket's life goes on. */
  lemma MovedMute(s: Session, e: Event, authenticate: bool)
    requires s.connection.None? && (s.phase.Greeting? || s.phase.Idle?)
    requires e.Data? ==> e.chunk != [] && s.phase.Idle?
    requires !e.Answered? && !e.Bind? && !e.Fail? && !e.Finish?
    ensures var r := Moved(s, e, authenticate);
            r.phase == s.phase && r.connection.None? && r.sent == s.sent && r.offered == s.offered
  {
  }

  lemma GreetedOffer(s: Session, chunk: bytes, authenticate: bool)
    requires chunk != [] && s.phase.Greeting? && s.connection.None? && s.sent == []
    ensures var r := Heard(s, chunk, authenticate);
            && !r.phase.Greeting?
            && (chunk[0] == 5 ==> r.offered == Offered(chunk))
            && (chunk[0] != 5 ==> r.phase.Idle? && r.connection.None? && r.sent == [])
  {
    var choice := Choice(Offered(chunk));
    assert choice == AUTH_USERPASS || choice == AUTH_NONE || choice == AUTH_NO_ACCEPTABLE;
  }

  lemma {:induction false} RunIntroduced(es: seq<Event>, authenticate: bool, id: Id)
    ensures id in Run(es, authenticate).sessions ==>
              Introduced(Run(es, authenticate).sessions[id], Chunks(es, authenticate, id))
    ensures id !in Run(es, authenticate).sessions ==> Chunks(es, authenticate, id) == []
    decreases |es|
  {
    if es != [] {
      var init, e := es[..|es| - 1], es[|es| - 1];
      var st := Run(init, authenticate);
      RunIntroduced(init, authenticate, id);
      if id in st.sessions && Enabled(st, e, authenticate) {
        StepAt(st, e, authenticate, id);
        if Concerns(e, id) {
          MovedIntroduced(st.sessions[id], e, authenticate, Chunks(init, authenticate, id));
        }
      }
    }
  }

  lemma MovedIntroduced(s: Session, e: Event, authenticate: bool, cs: seq<bytes>)
    requires Introduced(s, cs) && (e.Data? ==> e.chunk != []) && (e.Answered? ==> s.phase.Checking?)
    requires e.Bind? || e.Fail? || e.Finish? ==> s.connection.Some?
    ensures Introduced(Moved(s, e, authenticate), if e.Data? then cs + [e.chunk] else cs)
  {
    if e.Data? && cs == [] {
      GreetedOffer(s, e.chunk, authenticate);
    } else {
      if cs != [] {
        MovedOffer(s, e, authenticate);
      }
      if cs == [] || cs[0][0] != 5 {
        MovedMute(s, e, authenticate);
      }
    }
  }

  // ---------------------------------------------------------------- authentication

  /** At some point of the run the promise was pending for this socket and these credentials, and answered true. */
  ghost predicate Vouched(es: seq<Event>, authenticate: bool, id: Id, credentials: Option<Credentials>) {
    exists i :: 0 <= i < |es| && es[i] == Answered(id, Valid) && VouchedAt(es, authenticate, id, credentials, i)
  }

  ghost predicate VouchedAt(es: seq<Event>, authenticate: bool, id: Id, credentials: Option<Credentials>, i: nat)
    requires i < |es|
  {
    var st := Run(es[..i], authenticate);
    id in st.sessions && st.sessions[id].phase == Checking(credentials)
  }

  /** The socket sent these credentials, in one message, when they were asked for. */
  ghost predicate Presented(es: seq<Event>, authenticate: bool, id: Id, credentials: Credentials) {
    exists i :: 0 <= i < |es| && PresentedAt(es, authenticate, id, credentials, i)
  }

  ghost predicate PresentedAt(es: seq<Event>, authenticate: bool, id: Id, credentials: Credentials, i: nat)
    requires i < |es|
  {
    var st := Run(es[..i], authenticate);
    && es[i].Data? && es[i].id == id && AuthIn(es[i].chunk) == Some(credentials)
    && id in st.sessions && !st.sessions[id].destroyed && st.sessions[id].phase.SubNegotiation?
  }

  /** The socket asked for this address, with the CONNECT command, when it was its turn to. */
  ghost predicate AskedFor(es: seq<Event>, authenticate: bool, id: Id, address: Address) {
    exists i :: 0 <= i < |es| && AskedForAt(es, authenticate, id, address, i)
  }

  ghost predicate AskedForAt(es: seq<Event>, authenticate: bool, id: Id, address: Address, i: nat)
    requires i < |es|
  {
    var st := Run(es[..i], authenticate);
    && es[i].Data? && es[i].id == id && |es[i].chunk| >= 10 && es[i].chunk[1] == 1
    && AddressIn(es[i].chunk) == Some(address)
    && id in st.sessions && !st.sessions[id].destroyed && st.sessions[id].phase.Request?
  }

  /** Credentials being checked were presented; a socket past the check was vouched for. */
  ghost predicate Earned(es: seq<Event>, authenticate: bool, id: Id) {
    var st := Run(es, authenticate);
    id in st.sessions ==>
      var s := st.sessions[id];
      && (s.phase.Checking? && s.phase.credentials.Some? ==> Presented(es, authenticate, id, s.phase.credentials.value))
      && (s.auth.Some? ==> Presented(es, authenticate, id, s.auth.value) && Vouched(es, authenticate, id, s.auth))
      && (s.phase.Greeting? || s.phase.SubNegotiation? || s.phase.Checking? ==> s.auth.None? && s.connection.None?)
      && (authenticate && (s.phase.Request? || s.connection.Some?) ==> Vouched(es, authenticate, id, s.auth))
      && (s.connection.Some? ==> s.phase.Idle? && AskedFor(es, authenticate, id, s.connection.value))
  }

  lemma HistoryGrows(es: seq<Event>, e: Event, authenticate: bool, id: Id)
    ensures forall c :: Vouched(es, authenticate, id, c) ==> Vouched(es + [e], authenticate, id, c)
    ensures forall c :: Presented(es, authenticate, id, c) ==> Presented(es + [e], authenticate, id, c)
    ensures forall a :: AskedFor(es, authenticate, id, a) ==> AskedFor(es + [e], authenticate, id, a)
  {
    assert forall i :: 0 <= i <= |es| ==> (es + [e])[..i] == es[..i];
    forall c | Vouched(es, authenticate, id, c)
      ensures Vouched(es + [e], authenticate, id, c)
    {
      var i :| 0 <= i < |es| && es[i] == Answered(id, Valid) && VouchedAt(es, authenticate, id, c, i);
      assert VouchedAt(es + [e], authenticate, id, c, i);
    }
    forall c | Presented(es, authenticate, id, c)
      ensures Presented(es + [e], authenticate, id, c)
    {
      var i :| 0 <= i < |es| && PresentedAt(es, authenticate, id, c, i);
      assert PresentedAt(es + [e], authenticate, id, c, i);
    }
    forall a | AskedFor(es, authenticate, id, a)
      ensures AskedFor(es + [e], authenticate, id, a)
    {
      var i :| 0 <= i < |es| && AskedForAt(es, authenticate, id, a, i);
      assert AskedForAt(es + [e], authenticate, id, a, i);
    }
  }

  /** Only its own chunks and its own promise move a socket through the handshake. */
  lemma OthersUntouched(st: State, e: Event, authenticate: bool, id: Id)
    requires id in st.sessions && !(e.Data? && e.id == id) && !(e.Answered? && e.id == id)
    ensures var s, s' := st.sessions[id], Step(st, e, authenticate).sessions[id];
            s'.phase == s.phase && s'.auth == s.auth && s'.connection == s.connection
  {
    if Enabled(st, e, authenticate) {
      StepAt(st, e, authenticate, id);
    }
  }

  lemma EarnedStep(es: seq<Event>, e: Event, authenticate: bool, id: Id)
    requires Earned(es, authenticate, id)
    ensures Earned(es + [e], authenticate, id)
  {
    var all, st := es + [e], Run(es, authenticate);
    assert all[..|es|] == es && all[|all| - 1] == e;
    HistoryGrows(es, e, authenticate, id);
    if id !in st.sessions || !Enabled(st, e, authenticate) {
    } else if e.Answered? && e.id == id {
      AnswerEarned(es, e.answer, authenticate, id);
    } else if e.Data? && e.id == id {
      HeardEarned(es, e.chunk, authenticate, id);
    } else {
      OthersUntouched(st, e, authenticate, id);
    }
  }

  lemma AnswerEarned(es: seq<Event>, answer: Answer, authenticate: bool, id: Id)
    requires Earned(es, authenticate, id) && Enabled(Run(es, authenticate), Answered(id, answer), authenticate)
    ensures Earned(es + [Answered(id, answer)], authenticate, id)
  {
    var all, st := es + [Answered(id, answer)], Run(es, authenticate);
    assert all[..|es|] == es;
    HistoryGrows(es, Answered(id, answer), authenticate, id);
    var s := st.sessions[id];
    assert Run(all, authenticate).sessions[id] == Settled(s, s.phase.credentials, answer);
    if answer.Valid? {
      assert VouchedAt(all, authenticate, id, s.phase.credentials, |es|);
    }
  }

  lemma HeardEarned(es: seq<Event>, chunk: bytes, authenticate: bool, id: Id)
    requires Earned(es, authenticate, id) && Enabled(Run(es, authenticate), Data(id, chunk), authenticate)
    ensures Earned(es + [Data(id, chunk)], authenticate, id)
  {
    var all, st := es + [Data(id, chunk)], Run(es, authenticate);
    assert all[..|es|] == es;
    HistoryGrows(es, Data(id, chunk), authenticate, id);
    var s := st.sessions[id];
    assert Run(all, authenticate).sessions[id] == Heard(s, chunk, authenticate);
    match s.phase
    case Greeting => GreetedKeeps(s, chunk, authenticate);
    case SubNegotiation =>
      NegotiatedKeeps(s, chunk);
      if AuthIn(chunk).Some? {
        assert PresentedAt(all, authenticate, id, AuthIn(chunk).value, |es|);
      }
    case Request =>
      RequestedKeeps(s, chunk);
      RequestAsks(s, chunk);
      if Requested(s, chunk).connection.Some? && s.connection.None? {
        assert AskedForAt(all, authenticate, id, AddressIn(chunk).value, |es|);
      }
    case Checking(_) =>
    case Idle =>
  }

  lemma RequestAsks(s: Session, chunk: bytes)
    ensures var r := Requested(s, chunk);
            s.connection.None? && r.connection.Some? ==>
              |chunk| >= 10 && chunk[1] == 1 && AddressIn(chunk) == r.connection
  {
  }

  lemma {:induction false} RunEarned(es: seq<Event>, authenticate: bool, id: Id)
    ensures Earned(es, authenticate, id)
    decreases |es|
  {
    if es != [] {
      RunEarned(es[..|es| - 1], authenticate, id);
      EarnedStep(es[..|es| - 1], es[|es| - 1], authenticate, id);
      assert es[..|es| - 1] + [es[|es| - 1]] == es;
    }
  }

  /**
   * Authentication safety over all runs, however sockets, timers, closes and late answers interleave:
   * with authenticate set, a "connection" was preceded by authenticate answering true for that very
   * socket, and getAuth gives exactly the credentials it answered for, which the socket presented. It
   * gives credentials exactly to a client whose greeting, its first chunk, announced the username and
   * password method; every other connection announced no-auth. The destination is what the socket asked
   * for with the CONNECT command.
   */
  lemma ConnectionImpliesVouched(es: seq<Event>, authenticate: bool, id: Id)
    requires id in Run(es, authenticate).sessions && Run(es, authenticate).sessions[id].connection.Some?
    ensures var s, cs := Run(es, authenticate).sessions[id], Chunks(es, authenticate, id);
            && (authenticate ==> Vouched(es, authenticate, id, s.auth))
            && (s.auth.Some? ==> Vouched(es, authenticate, id, s.auth) && Presented(es, authenticate, id, s.auth.value))
            && cs != [] && cs[0] != [] && cs[0][0] == 5
            && (s.auth.Some? <==> Offers(cs[0], 2))
            && (s.auth.None? ==> Offers(cs[0], 0))
            && AskedFor(es, authenticate, id, s.connection.value)
  {
    var cs := Chunks(es, authenticate, id);
    RunEarned(es, authenticate, id);
    RunKept(es, authenticate, id);
    RunBooks(es, authenticate);
    assert Booked(Run(es, authenticate), id);
    RunIntroduced(es, authenticate, id);
    OfferedIsAnnounced(cs[0], 2);
    OfferedIsAnnounced(cs[0], 0);
  }

  // ---------------------------------------------------------------- transcripts

  /** The messages by which the handshake got as far as asking for a request. */
  function Opening(s: Session): seq<bytes> {
    if s.auth.Some? then [[SOCKS_VERSION, AUTH_USERPASS], [1, 0]] else [[SOCKS_VERSION, AUTH_NONE]]
  }

  predicate IsReply(m: bytes) {
    m == BuildReply(0) || m == BuildReply(1) || m == BuildReply(7)
  }

  predicate AtMostOneReply(ms: seq<bytes>) {
    ms == [] || (|ms| == 1 && IsReply(ms[0]))
  }

  predicate LegalFor(sent: seq<bytes>, offered: seq<byte>) {
    || sent == []
    || (sent[0] == [SOCKS_VERSION, Choice(offered)]
        && match Choice(offered)
           case 2 => |sent| == 1 || sent[1..] == [[1, 1]] || (sent[1] == [1, 0] && AtMostOneReply(sent[2..]))
           case 0 => AtMostOneReply(sent[1..])
           case _ => |sent| == 1)
  }

  /** A reply on the wire: its code, and the unspecified IPv4 address and port. */
  predicate ReplyOnWire(m: bytes) {
    || m == [5, 0, 0, 1, 0, 0, 0, 0, 0, 0]
    || m == [5, 1, 0, 1, 0, 0, 0, 0, 0, 0]
    || m == [5, 7, 0, 1, 0, 0, 0, 0, 0, 0]
  }

  predicate RepliesOnWire(ms: seq<bytes>) {
    ms == [] || (|ms| == 1 && ReplyOnWire(ms[0]))
  }

  /**
   * The legal transcripts on the wire, given the client's greeting: at most one method selection, the
   * preferred one of those announced; an auth status only after 05 02; then at most one reply, after
   * success only.
   */
  ghost predicate Legal(sent: seq<bytes>, greeting: bytes) {
    || sent == []
    || (Offers(greeting, 2) && sent[0] == [5, 2]
        && (|sent| == 1 || sent[1..] == [[1, 1]] || (sent[1] == [1, 0] && RepliesOnWire(sent[2..]))))
    || (!Offers(greeting, 2) && Offers(greeting, 0) && sent[0] == [5, 0] && RepliesOnWire(sent[1..]))
    || (!Offers(greeting, 2) && !Offers(greeting, 0) && sent == [[5, 255]])
  }

  lemma LegalOnWire(sent: seq<bytes>, greeting: bytes)
    ensures LegalFor(sent, Offered(greeting)) <==> Legal(sent, greeting)
  {
    OfferedIsAnnounced(greeting, 2);
    OfferedIsAnnounced(greeting, 0);
    assert forall m :: IsReply(m) <==> ReplyOnWire(m);
    var choice := Choice(Offered(greeting));
    assert choice == 2 || choice == 0 || choice == 255;
    assert |sent| == 1 ==> sent == [sent[0]];
  }

  /** What the transcript looks like in each phase. */
  ghost predicate Transcribed(s: Session) {
    match s.phase
    case Greeting => s.sent == [] && s.auth.None? && s.connection.None? && (s.finished ==> s.ended)
    case SubNegotiation =>
      && s.sent == [[SOCKS_VERSION, AUTH_USERPASS]] && s.auth.None? && s.connection.None? && (s.finished ==> s.ended)
      && Choice(s.offered) == AUTH_USERPASS
    case Checking(c) =>
      && s.auth.None? && s.connection.None? && (s.finished ==> s.ended)
      && Choice(s.offered) == (if c.Some? then AUTH_USERPASS else AUTH_NONE)
      && s.sent == [[SOCKS_VERSION, Choice(s.offered)]]
    case Request =>
      && s.connection.None? && (s.finished ==> s.ended)
      && Choice(s.offered) == (if s.auth.Some? then AUTH_USERPASS else AUTH_NONE)
      && (s.sent == Opening(s) || (s.destroyed && s.sent == Opening(s)[..1]))
    case Idle =>
      if s.connection.None? then LegalFor(s.sent, s.offered) && (s.finished || s.destroyed) && BuildReply(0) !in s.sent
      else
        && Choice(s.offered) == (if s.auth.Some? then AUTH_USERPASS else AUTH_NONE)
        && |s.sent| == |Opening(s)| + s.replies && Opening(s) <= s.sent
        && (forall i :: |Opening(s)| <= i < |s.sent| ==> s.sent[i] == BuildReply(0) || s.sent[i] == BuildReply(1))
        && (BuildReply(0) in s.sent ==> s.bound)
  }

  ghost predicate Kept(s: Session) {
    Transcribed(s) && (s.connection.None? ==> s.replies == 0 && !s.bound)
  }

  lemma GreetedTranscribed(s: Session, chunk: bytes, authenticate: bool)
    requires chunk != [] && s.phase.Greeting? && Transcribed(s) && !s.destroyed && !s.ended
    ensures Transcribed(Greeted(s, chunk, authenticate))
  {
    var choice := Choice(Offered(chunk));
    assert choice == AUTH_USERPASS || choice == AUTH_NONE || choice == AUTH_NO_ACCEPTABLE;
  }

  lemma NegotiatedTranscribed(s: Session, chunk: bytes)
    requires s.phase.SubNegotiation? && Transcribed(s) && !s.destroyed && !s.ended
    ensures Transcribed(Negotiated(s, chunk))
  {
    if AuthIn(chunk).None? {
      var r := Negotiated(s, chunk);
      assert r.sent == [[SOCKS_VERSION, AUTH_USERPASS], [1, 1]];
      assert r.sent[1..] == [[1, 1]];
    }
  }

  lemma VouchedTranscribed(s: Session)
    requires s.phase.Checking? && Transcribed(s)
    ensures Transcribed(Settled(s, s.phase.credentials, Valid))
  {
    var r := Settled(s, s.phase.credentials, Valid);
    assert s.phase.credentials.Some? ==> r.sent == if Down(s) then Opening(r)[..1] else Opening(r);
  }

  lemma TurnedDownTranscribed(s: Session, answer: Answer)
    requires s.phase.Checking? && Transcribed(s) && !answer.Valid?
    ensures Transcribed(Settled(s, s.phase.credentials, answer))
  {
    var r := Settled(s, s.phase.credentials, answer);
    assert |r.sent| == 2 ==> r.sent[1..] == [[1, 1]];
  }

  lemma SettledTranscribed(s: Session, answer: Answer)
    requires s.phase.Checking? && Transcribed(s)
    ensures Transcribed(Settled(s, s.phase.credentials, answer))
  {
    if answer.Valid? {
      VouchedTranscribed(s);
    } else {
      TurnedDownTranscribed(s, answer);
    }
  }

  lemma RefusedTranscribed(s: Session, m: bytes)
    requires s.phase.Request? && Transcribed(s) && !s.destroyed && !s.ended
    requires m == BuildReply(7) || m == BuildReply(1)
    ensures Transcribed(Refused(s, m))
  {
    var r := Refused(s, m);
    assert r.sent == Opening(s) + [m];
    assert r.sent[|Opening(s)|..] == [m];
  }

  lemma RequestedTranscribed(s: Session, chunk: bytes)
    requires s.phase.Request? && Transcribed(s) && !s.destroyed && !s.ended && s.replies == 0
    ensures Transcribed(Requested(s, chunk))
  {
    if |chunk| < 2 || chunk[1] != CMD_CONNECT {
      RefusedTranscribed(s, BuildReply(7));
    } else if AddressIn(chunk).None? {
      RefusedTranscribed(s, BuildReply(1));
    }
  }

  lemma {:induction false} HeardKept(s: Session, chunk: bytes, authenticate: bool)
    requires chunk != [] && Kept(s) && !s.destroyed && !s.ended && (s.connection.Some? ==> s.phase.Idle?)
    ensures Kept(Heard(s, chunk, authenticate))
  {
    HeardKeeps(s, chunk, authenticate);
    match s.phase
    case Greeting => GreetedTranscribed(s, chunk, authenticate);
    case SubNegotiation => NegotiatedTranscribed(s, chunk);
    case Request => RequestedTranscribed(s, chunk);
    case Checking(_) =>
    case Idle =>
  }

  lemma RepliesDiffer()
    ensures BuildReply(1) != BuildReply(0)
  {
    assert BuildReply(1)[1] != BuildReply(0)[1];
  }

  /** A call on a connection adds at most one reply, success by bind alone. */
  predicate OneMoreReply(s: Session, r: Session, rep: byte) {
    && r == s.(sent := r.sent, replies := r.replies, bound := r.bound,
               finished := r.finished, destroyed := r.destroyed)
    && ((r.sent == s.sent && r.replies == s.replies)
        || (r.sent == s.sent + [BuildReply(rep)] && r.replies == s.replies + 1))
    && (s.bound || rep == 0 ==> r.bound)
  }

  lemma OneMoreReplyKept(s: Session, r: Session, rep: byte)
    requires Kept(s) && s.connection.Some? && s.phase.Idle? && rep <= 1 && OneMoreReply(s, r, rep)
    ensures Kept(r)
  {
    RepliesDiffer();
  }

  lemma CalledReplies(s: Session, e: Event, authenticate: bool)
    requires e.Bind? || e.Fail? || e.Finish?
    ensures OneMoreReply(s, Moved(s, e, authenticate), if e.Bind? then 0 else 1)
  {
  }

  lemma FinnedKept(s: Session, halfOpen: bool)
    requires Kept(s)
    ensures Kept(Finned(s, halfOpen))
  {
  }

  lemma AnsweredKept(s: Session, answer: Answer)
    requires Kept(s) && s.phase.Checking?
    ensures Kept(Settled(s, s.phase.credentials, answer))
  {
    SettledTranscribed(s, answer);
    SettledKeeps(s, s.phase.credentials, answer);
  }

  lemma DestroyedKept(s: Session, closed: bool, closes: nat)
    requires Kept(s)
    ensures Kept(s.(destroyed := true, closed := closed, closes := closes))
  {
  }

  lemma CalledKept(s: Session, e: Event, authenticate: bool)
    requires Kept(s) && s.connection.Some? && s.phase.Idle? && (e.Bind? || e.Fail? || e.Finish?)
    ensures Kept(Moved(s, e, authenticate))
  {
    CalledReplies(s, e, authenticate);
    OneMoreReplyKept(s, Moved(s, e, authenticate), if e.Bind? then 0 else 1);
  }

  lemma GoneKept(s: Session, e: Event, authenticate: bool)
    requires Kept(s) && (e.HandshakeTimer? || e.Destroyed? || e.Close? || e.ServerClose?)
    ensures Kept(Moved(s, e, authenticate))
  {
    var r := Moved(s, e, authenticate);
    DestroyedKept(s, r.closed, r.closes);
  }

  lemma {:induction false} MovedKept(s: Session, e: Event, authenticate: bool)
    requires Kept(s) && (s.connection.Some? ==> s.phase.Idle?)
    requires (e.Data? ==> e.chunk != [] && !s.destroyed && !s.ended) && (e.Answered? ==> s.phase.Checking?)
    requires e.Bind? || e.Fail? || e.Finish? ==> s.connection.Some?
    ensures Kept(Moved(s, e, authenticate))
  {
    if e.Data? {
      HeardKept(s, e.chunk, authenticate);
    } else if e.Answered? {
      AnsweredKept(s, e.answer);
    } else if e.End? {
      FinnedKept(s, e.halfOpen);
    } else if e.Bind? || e.Fail? || e.Finish? {
      CalledKept(s, e, authenticate);
    } else if !e.Accept? {
      GoneKept(s, e, authenticate);
    }
  }

  lemma {:induction false} StepKept(st: State, e: Event, authenticate: bool, id: Id)
    requires Books(st) && id in st.sessions && Kept(st.sessions[id])
    ensures Kept(Step(st, e, authenticate).sessions[id])
  {
    var s := st.sessions[id];
    assert Booked(st, id);
    if Enabled(st, e, authenticate) {
      StepAt(st, e, authenticate, id);
      if Concerns(e, id) {
        MovedKept(s, e, authenticate);
      } else {
        DestroyedKept(s, s.closed, s.closes);
      }
    }
  }

  lemma {:induction false} RunKept(es: seq<Event>, authenticate: bool, id: Id)
    requires id in Run(es, authenticate).sessions
    ensures Kept(Run(es, authenticate).sessions[id])
    decreases |es|
  {
    var init, e := es[..|es| - 1], es[|es| - 1];
    if id in Run(init, authenticate).sessions {
      RunKept(init, authenticate, id);
      RunBooks(init, authenticate);
      StepKept(Run(init, authenticate), e, authenticate, id);
    }
  }

  /** A call of bind or error on a connection whose socket is neither ended nor destroyed. */
  predicate LiveCall(st: State, e: Event, id: Id) {
    && (e == Bind(id) || e == Fail(id))
    && id in st.sessions && st.sessions[id].connection.Some? && !Down(st.sessions[id])
  }

  /** How often the application made such a call on this connection. */
  function LiveCalls(es: seq<Event>, authenticate: bool, id: Id): nat {
    if es == [] then 0
    else
      var init, e := es[..|es| - 1], es[|es| - 1];
      LiveCalls(init, authenticate, id) + (if LiveCall(Run(init, authenticate), e, id) then 1 else 0)
  }

  lemma {:induction false} StepReplies(st: State, e: Event, authenticate: bool, id: Id)
    requires Books(st) && id in st.sessions
    ensures var s, s' := st.sessions[id], Step(st, e, authenticate).sessions[id];
            && s'.replies == s.replies + (if LiveCall(st, e, id) then 1 else 0)
            && (s'.bound ==> s.bound || e == Bind(id))
  {
    assert Booked(st, id);
    if Enabled(st, e, authenticate) {
      StepAt(st, e, authenticate, id);
      if Concerns(e, id) {
        MovedLife(st.sessions[id], e, authenticate);
      }
    }
  }

  /** The replies a socket was sent are the live calls made on it. */
  lemma {:induction false} RepliesAreLiveCalls(es: seq<Event>, authenticate: bool, id: Id)
    ensures id in Run(es, authenticate).sessions ==>
              && Run(es, authenticate).sessions[id].replies == LiveCalls(es, authenticate, id)
              && (Run(es, authenticate).sessions[id].bound ==> Bind(id) in es)
    ensures id !in Run(es, authenticate).sessions ==> LiveCalls(es, authenticate, id) == 0
    decreases |es|
  {
    if es != [] {
      var init, e := es[..|es| - 1], es[|es| - 1];
      assert es == init + [e];
      RepliesAreLiveCalls(init, authenticate, id);
      RunBooks(init, authenticate);
      if id in Run(init, authenticate).sessions {
        StepReplies(Run(init, authenticate), e, authenticate, id);
      }
    }
  }

  lemma LegalByReplies(s: Session)
    requires Kept(s) && (s.connection.Some? ==> s.phase.Idle?)
    ensures LegalFor(s.sent, s.offered) <==> s.replies <= 1
  {
    if s.connection.Some? {
      assert s.sent[0] == Opening(s)[0] == [SOCKS_VERSION, Choice(s.offered)];
      assert s.auth.Some? ==> s.sent[1] == Opening(s)[1];
    }
  }

  /** The transcript is legal for the greeting that came first; before any, nothing may be sent. */
  ghost predicate LegalAfter(sent: seq<bytes>, cs: seq<bytes>) {
    if cs == [] then sent == [] else Legal(sent, cs[0]) && (sent != [] ==> cs[0] != [] && cs[0][0] == 5)
  }

  /**
   * The greeting's outcome, on the wire: the first chunk, when it is of version 5, is answered 05 02 if it
   * announces username and password, else 05 00 if it announces no-auth, else 05 FF and the end; any
   * other version is answered by the end alone. Credentials are then awaited, or the application asked
   * without any, or the request awaited.
   */
  lemma GreetingAnswered(es: seq<Event>, greeting: bytes, authenticate: bool, id: Id)
    requires Enabled(Run(es, authenticate), Data(id, greeting), authenticate)
    requires Chunks(es, authenticate, id) == []
    ensures var r := Run(es + [Data(id, greeting)], authenticate).sessions[id];
            && (greeting[0] == 5 && Offers(greeting, 2) <==> r.sent == [[5, 2]])
            && (greeting[0] == 5 && !Offers(greeting, 2) && Offers(greeting, 0) <==> r.sent == [[5, 0]])
            && (greeting[0] == 5 && !Offers(greeting, 2) && !Offers(greeting, 0) <==> r.sent == [[5, 255]])
            && (greeting[0] != 5 <==> r.sent == [])
            && (r.sent == [[5, 2]] ==> r.phase == SubNegotiation && !r.finished)
            && (r.sent == [[5, 0]] ==> r.phase == (if authenticate then Checking(None) else Request) && !r.finished)
            && (r.sent == [[5, 255]] || r.sent == [] ==> r.finished)
  {
    var st := Run(es, authenticate);
    RunIntroduced(es, authenticate, id);
    RunKept(es, authenticate, id);
    RunAppend(es, Data(id, greeting), authenticate);
    StepAt(st, Data(id, greeting), authenticate, id);
    OfferedIsAnnounced(greeting, 2);
    OfferedIsAnnounced(greeting, 0);
    var s := st.sessions[id];
    GreetingSent(s, greeting, authenticate);
  }

  lemma GreetingSent(s: Session, greeting: bytes, authenticate: bool)
    requires greeting != [] && s.sent == [] && !Down(s)
    ensures var r := Greeted(s, greeting, authenticate); var methods := Offered(greeting);
            && r.sent == (if greeting[0] != 5 then [] else if 2 in methods then [[5, 2]]
                          else if 0 in methods then [[5, 0]] else [[5, 255]])
            && (greeting[0] == 5 && 2 in methods ==> r.phase == SubNegotiation && !r.finished)
            && (greeting[0] == 5 && 2 !in methods && 0 in methods ==>
                  r.phase == (if authenticate then Checking(None) else Request) && !r.finished)
            && (greeting[0] != 5 || (2 !in methods && 0 !in methods) ==> r.finished)
  {
    assert forall m: bytes :: [] + [m] == [m];
  }

  /**
   * What later messages, answers and calls are answered with, on the wire, on a socket that is up: an
   * authentication status, 01 00 or 01 01; a reply, 05 07 to another command than CONNECT, 05 01 to a
   * malformed address or by error(), 05 00 by bind; and whether the socket is ended then.
   */
  ghost predicate Answering(s: Session, e: Event, m: seq<bytes>, ends: bool) {
    match e
    case Data(_, d) =>
      if s.phase.SubNegotiation? then
        if AuthIn(d).Some? then m == [] && !ends else m == [[1, 1]] && ends
      else if s.phase.Request? then
        if |d| < 2 || d[1] != 1 then m == [[5, 7, 0, 1, 0, 0, 0, 0, 0, 0]] && ends
        else if AddressIn(d).Some? then m == [] && !ends
        else m == [[5, 1, 0, 1, 0, 0, 0, 0, 0, 0]] && ends
      else m == [] && !ends
    case Answered(_, answer) =>
      && s.phase.Checking?
      && m == (if s.phase.credentials.None? || answer.Rejected? then []
               else if answer.Valid? then [[1, 0]] else [[1, 1]])
      && (ends <==> !answer.Valid?)
    case Bind(_) => m == [[5, 0, 0, 1, 0, 0, 0, 0, 0, 0]] && !ends
    case Fail(_) => m == [[5, 1, 0, 1, 0, 0, 0, 0, 0, 0]] && ends
    case Finish(_) => m == [] && ends
    case End(_, halfOpen) => m == [] && (ends <==> !halfOpen)
    case _ => m == [] && !ends
  }

  /** Where it takes the handshake: to the check, past it, or to the connection. */
  ghost predicate Proceeding(s: Session, e: Event, r: Session) {
    && (e.Data? && s.phase.SubNegotiation? && AuthIn(e.chunk).Some? ==> r.phase == Checking(AuthIn(e.chunk)))
    && (e.Answered? && e.answer.Valid? ==>
          s.phase.Checking? && r.phase.Request?
          && r.auth == (if s.phase.credentials.Some? then s.phase.credentials else s.auth))
    && (e.Data? && s.phase.Request? && |e.chunk| >= 2 && e.chunk[1] == 1 && AddressIn(e.chunk).Some? ==>
          r.connection == AddressIn(e.chunk))
  }

  lemma EachAnswered(es: seq<Event>, e: Event, authenticate: bool, id: Id) returns (m: seq<bytes>, ends: bool)
    requires Enabled(Run(es, authenticate), e, authenticate) && Concerns(e, id) && !e.Accept?
    requires !Down(Run(es, authenticate).sessions[id])
    requires e.Data? ==> Chunks(es, authenticate, id) != []
    ensures var s, r := Run(es, authenticate).sessions[id], Run(es + [e], authenticate).sessions[id];
            && Answering(s, e, m, ends) && Proceeding(s, e, r)
            && r.sent == s.sent + m && (r.finished <==> ends)
            && (r.destroyed <==> e.HandshakeTimer? || e.Destroyed? || e.Close?)
  {
    var st := Run(es, authenticate);
    var s := st.sessions[id];
    RunIntroduced(es, authenticate, id);
    RunAppend(es, e, authenticate);
    StepAt(st, e, authenticate, id);
    m, ends := MovedAnswers(s, e, authenticate);
  }

  lemma MovedAnswers(s: Session, e: Event, authenticate: bool) returns (m: seq<bytes>, ends: bool)
    requires (e.Data? ==> e.chunk != [] && !s.phase.Greeting?) && (e.Answered? ==> s.phase.Checking?) && !Down(s)
    requires !e.Accept? && !e.ServerClose?
    ensures var r := Moved(s, e, authenticate);
            && Answering(s, e, m, ends) && Proceeding(s, e, r) && r.sent == s.sent + m && (r.finished <==> ends)
            && (r.destroyed <==> e.HandshakeTimer? || e.Destroyed? || e.Close?)
  {
    if e.Data? {
      m, ends := HeardAnswers(s, e, authenticate);
    } else {
      m, ends := OtherAnswers(s, e, authenticate);
    }
  }

  lemma HeardAnswers(s: Session, e: Event, authenticate: bool) returns (m: seq<bytes>, ends: bool)
    requires e.Data? && e.chunk != [] && !s.phase.Greeting? && !Down(s)
    ensures var r := Heard(s, e.chunk, authenticate);
            && Answering(s, e, m, ends) && Proceeding(s, e, r) && r.sent == s.sent + m && (r.finished <==> ends)
            && !r.destroyed
  {
    var r := Heard(s, e.chunk, authenticate);
    ends := r.finished;
    m := r.sent[|s.sent|..];
  }

  lemma OtherAnswers(s: Session, e: Event, authenticate: bool) returns (m: seq<bytes>, ends: bool)
    requires !e.Data? && !e.Accept? && !e.ServerClose? && (e.Answered? ==> s.phase.Checking?) && !Down(s)
    ensures var r := Moved(s, e, authenticate);
            && Answering(s, e, m, ends) && Proceeding(s, e, r) && r.sent == s.sent + m && (r.finished <==> ends)
            && (r.destroyed <==> e.HandshakeTimer? || e.Destroyed? || e.Close?)
  {
    var r := Moved(s, e, authenticate);
    ends := r.finished;
    m := r.sent[|s.sent|..];
  }

  /**
   * Transcript legality over all runs, exactly: what a socket was sent is a legal transcript for the
   * methods its greeting announced if and only if the application called bind or error at most once on its
   * connection while the socket was neither ended nor destroyed.
   */
  lemma {:induction false} TranscriptLegalExactly(es: seq<Event>, authenticate: bool, id: Id)
    requires id in Run(es, authenticate).sessions
    ensures LegalAfter(Run(es, authenticate).sessions[id].sent, Chunks(es, authenticate, id))
            <==> LiveCalls(es, authenticate, id) <= 1
  {
    var s, cs := Run(es, authenticate).sessions[id], Chunks(es, authenticate, id);
    RepliesAreLiveCalls(es, authenticate, id);
    RunKept(es, authenticate, id);
    RunBooks(es, authenticate);
    assert Booked(Run(es, authenticate), id);
    LegalByReplies(s);
    RunIntroduced(es, authenticate, id);
    if cs != [] && cs[0][0] == 5 {
      LegalOnWire(s.sent, cs[0]);
    }
  }

  /** How often the application called bind or error on this connection at all. */
  function Calls(es: seq<Event>, id: Id): nat {
    if es == [] then 0
    else Calls(es[..|es| - 1], id) + (if es[|es| - 1] == Bind(id) || es[|es| - 1] == Fail(id) then 1 else 0)
  }

  lemma {:induction false} LiveCallsWithinCalls(es: seq<Event>, authenticate: bool, id: Id)
    ensures LiveCalls(es, authenticate, id) <= Calls(es, id)
    decreases |es|
  {
    if es != [] {
      LiveCallsWithinCalls(es[..|es| - 1], authenticate, id);
    }
  }

  /**
   * So an application that calls bind or error at most once per connection keeps every transcript
   * legal; and in every run a success reply is only ever sent by its bind, past the check.
   */
  lemma {:induction false} OneCallKeepsTranscriptLegal(es: seq<Event>, authenticate: bool, id: Id)
    requires id in Run(es, authenticate).sessions
    ensures var s := Run(es, authenticate).sessions[id];
            && (Calls(es, id) <= 1 ==> LegalAfter(s.sent, Chunks(es, authenticate, id)))
            && ([5, 0, 0, 1, 0, 0, 0, 0, 0, 0] in s.sent ==>
                  Bind(id) in es && s.connection.Some? && (authenticate ==> Vouched(es, authenticate, id, s.auth)))
  {
    var s := Run(es, authenticate).sessions[id];
    TranscriptLegalExactly(es, authenticate, id);
    LiveCallsWithinCalls(es, authenticate, id);
    RepliesAreLiveCalls(es, authenticate, id);
    RunKept(es, authenticate, id);
    RunEarned(es, authenticate, id);
    if BuildReply(0) in s.sent {
      SuccessNeedsConnection(s);
    }
  }

  /** A client without authentication that asks for some address, and an application that binds twice. */
  function BoundTwice(id: Id, request: bytes): seq<Event>
  {
    [Accept(id), Data(id, [5, 1, 0]), Data(id, request), Bind(id), Bind(id)]
  }

  lemma Asked(id: Id, request: bytes)
    requires |request| >= 2 && request[1] == 1 && AddressIn(request).Some?
    ensures var st := Run(BoundTwice(id, request)[..3], false);
            id in st.sessions && st.sessions[id] == NEW_SESSION.(
              phase := Idle, offered := [AUTH_NONE], sent := [[SOCKS_VERSION, AUTH_NONE]],
              connection := AddressIn(request))
  {
    var es, greeting := BoundTwice(id, request), [SOCKS_VERSION, 1, AUTH_NONE];
    assert es[..0] + [Accept(id)] == es[..1] && es[..1] + [Data(id, greeting)] == es[..2];
    assert es[..2] + [Data(id, request)] == es[..3];
    RunAppend(es[..0], Accept(id), false);
    RunAppend(es[..1], Data(id, greeting), false);
    RunAppend(es[..2], Data(id, request), false);
    assert Offered(greeting) == [AUTH_NONE] && [] + [[SOCKS_VERSION, AUTH_NONE]] == [[SOCKS_VERSION, AUTH_NONE]];
    assert Run(es[..1], false).sessions[id] == NEW_SESSION;
    assert Greeted(NEW_SESSION, greeting, false)
           == NEW_SESSION.(phase := Request, offered := [AUTH_NONE], sent := [[SOCKS_VERSION, AUTH_NONE]]);
  }

  lemma BindReplies(st: State, id: Id)
    requires id in st.sessions && st.sessions[id].connection.Some? && !Down(st.sessions[id])
    ensures var st' := Step(st, Bind(id), false);
            && LiveCall(st, Bind(id), id) && id in st'.sessions
            && st'.sessions[id].sent == st.sessions[id].sent + [BuildReply(0)]
            && st'.sessions[id].offered == st.sessions[id].offered
            && st'.sessions[id].connection.Some? && !Down(st'.sessions[id])
  {
  }

  /** The server does not stop a second bind: for every good request it sends a second reply. */
  lemma SecondBindIllegal(id: Id, request: bytes)
    requires |request| >= 2 && request[1] == 1 && AddressIn(request).Some?
    ensures var es := BoundTwice(id, request); var st := Run(es, false);
            && id in st.sessions
            && st.sessions[id].sent == [[5, 0], [5, 0, 0, 1, 0, 0, 0, 0, 0, 0], [5, 0, 0, 1, 0, 0, 0, 0, 0, 0]]
            && !LegalAfter(st.sessions[id].sent, Chunks(es, false, id))
            && LiveCalls(es, false, id) > 1
  {
    var es := BoundTwice(id, request);
    Asked(id, request);
    assert es[..3] + [Bind(id)] == es[..4] && es[..4] + [Bind(id)] == es;
    RunAppend(es[..3], Bind(id), false);
    RunAppend(es[..4], Bind(id), false);
    BindReplies(Run(es[..3], false), id);
    BindReplies(Run(es[..4], false), id);
    TranscriptLegalExactly(es, false, id);
    assert Run(es, false).sessions[id].sent[1..] == [BuildReply(0), BuildReply(0)];
  }

  lemma SuccessNeedsConnection(s: Session)
    requires Kept(s) && BuildReply(0) in s.sent
    ensures s.connection.Some? && s.bound
  {
    assert |BuildReply(0)| == 10;
  }

  // ---------------------------------------------------------------- sockets that are down

  ghost predicate Silent(s: Session, s': Session) {
    Down(s') && s'.sent == s.sent && s'.connection == s.connection
  }

  lemma WroteSilent(s: Session, m: bytes)
    requires Down(s)
    ensures Silent(s, Wrote(s, m))
  {
  }

  lemma SettledSilent(s: Session, credentials: Option<Credentials>, answer: Answer)
    requires Down(s)
    ensures Silent(s, Settled(s, credentials, answer))
  {
  }

  lemma MovedSilent(s: Session, e: Event, authenticate: bool)
    requires Down(s) && Kept(s)
    requires (e.Data? ==> e.chunk != [] && !s.destroyed && !s.ended) && (e.Answered? ==> s.phase.Checking?)
    ensures Silent(s, Moved(s, e, authenticate))
  {
    match e
    case Data(_, chunk) => assert s.phase.Idle?;
    case Answered(_, answer) => SettledSilent(s, s.phase.credentials, answer);
    case Bind(_) => WroteSilent(s, BuildReply(0));
    case Fail(_) => WroteSilent(s, BuildReply(1));
    case _ =>
  }

  lemma StepSilent(st: State, e: Event, authenticate: bool, id: Id)
    requires id in st.sessions && Down(st.sessions[id]) && Kept(st.sessions[id])
    ensures Silent(st.sessions[id], Step(st, e, authenticate).sessions[id])
  {
    if Enabled(st, e, authenticate) {
      StepAt(st, e, authenticate, id);
      if Concerns(e, id) {
        MovedSilent(st.sessions[id], e, authenticate);
      }
    }
  }

  lemma RunAppend(es: seq<Event>, e: Event, authenticate: bool)
    ensures Run(es + [e], authenticate) == Step(Run(es, authenticate), e, authenticate)
  {
    assert (es + [e])[..|es|] == es;
  }

  /**
   * A socket that is down stays silent, whatever happens later, a late true answer of authenticate
   * included: nothing more is written to it, and no connection is emitted for it.
   */
  lemma {:induction false} DownIsFinal(es: seq<Event>, more: seq<Event>, authenticate: bool, id: Id)
    requires id in Run(es, authenticate).sessions && Down(Run(es, authenticate).sessions[id])
    ensures id in Run(es + more, authenticate).sessions
    ensures Silent(Run(es, authenticate).sessions[id], Run(es + more, authenticate).sessions[id])
    decreases |more|
  {
    if more == [] {
      assert es + more == es;
    } else {
      var init, e := more[..|more| - 1], more[|more| - 1];
      DownIsFinal(es, init, authenticate, id);
      RunKept(es + init, authenticate, id);
      StepSilent(Run(es + init, authenticate), e, authenticate, id);
      RunAppend(es + init, e, authenticate);
      assert es + more == es + init + [e];
    }
  }

  /**
   * The handshake timer, error(), end(), the client's FIN, socket errors and closes each take their socket
   * down for good, the timer by destroying it: whatever happens later, nothing more is written to it
   * and no connection is emitted for it.
   */
  lemma TakenDown(es: seq<Event>, e: Event, more: seq<Event>, authenticate: bool)
    requires Enabled(Run(es, authenticate), e, authenticate)
    requires e.HandshakeTimer? || e.Destroyed? || e.Close? || e.Fail? || e.Finish? || (e.End? && !e.halfOpen)
    ensures e.id in Run(es + [e] + more, authenticate).sessions
    ensures var r := Run(es + [e], authenticate).sessions[e.id];
            (e.HandshakeTimer? || e.Destroyed? || e.Close? ==> r.destroyed) && (e.Close? ==> r.closed)
    ensures Silent(Run(es + [e], authenticate).sessions[e.id], Run(es + [e] + more, authenticate).sessions[e.id])
  {
    RunAppend(es, e, authenticate);
    DownIsFinal(es + [e], more, authenticate, e.id);
  }
}
