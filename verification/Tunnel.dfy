/**
 * The tunnel that splices two sockets (src/utils/tunnel/index.js), without transforms:
 * its event handlers on two socket objects, and what every run of events keeps.
 */
module Tunnel {
  import opened Bytes

  /** Error codes that are normal teardown noise. */
  const BENIGN_ERRORS: seq<string> := ["ECONNRESET", "EPIPE", "ERR_STREAM_WRITE_AFTER_END"]

  predicate Benign(code: string) {
    code in BENIGN_ERRORS
  }

  // ---------------------------------------------------------------- state and events

  datatype Side = Client | Target {
    function Other(): Side {
      if Client? then Target else Client
    }
  }

  /**
   * A socket as the tunnel sees it: bytes the tunnel read from its peer, bytes ever written to it,
   * whether its FIN was read (ended: "end" was emitted), whether end() was called (finished), and the
   * time of its last read or write. `closed` and `errored` say that the event was emitted.
   */
  datatype SocketState = SocketState(
    received: bytes, written: bytes, ended: bool, finished: bool,
    destroyed: bool, closed: bool, errored: bool, allowHalfOpen: bool, lastActive: nat)

  /**
   * timeouts counts calls of onTimeout, reported lists the codes given to onError;
   * lastTraffic is the time of the last chunk in either direction (the start, before any).
   */
  datatype State = State(
    client: SocketState, target: SocketState, idleTimeout: nat, timedOut: bool,
    timeouts: nat, reported: seq<string>, now: nat, lastTraffic: nat)
  {
    function At(side: Side): SocketState {
      if side.Client? then client else target
    }

    function DestroyBoth(): State {
      this.(client := client.(destroyed := true), target := target.(destroyed := true))
    }
  }

  datatype Event =
    | Data(side: Side, chunk: bytes)     // a chunk is read and, by the pipe, written across
    | End(side: Side)                    // the peer's FIN is read
    | Error(side: Side, code: string)
    | Close(side: Side)
    | Idle(side: Side)                   // that socket's inactivity timer fires
    | Kill(side: Side)                   // someone else destroys the socket, e.g. the server's close()
    | Wait(time: nat)

  /** When the runtime can emit the event. */
  predicate Enabled(s: State, e: Event) {
    match e
    case Data(side, chunk) => chunk != [] && !s.At(side).destroyed && !s.At(side).ended
    case End(side) => !s.At(side).destroyed && !s.At(side).ended
    case Error(side, _) => !s.At(side).errored && !s.At(side).closed
    case Close(side) => !s.At(side).closed && (s.At(side).destroyed || (s.At(side).ended && s.At(side).finished))
    case Idle(side) =>
      // a timer of a destroyed socket is cleared, unless it was due together with the other one
      && s.idleTimeout > 0 && s.now >= s.At(side).lastActive + s.idleTimeout
      && (!s.At(side).destroyed || s.timedOut)
    case Kill(_) => true
    case Wait(_) => true
  }

  /** stream.end(): nothing to do on a destroyed socket. */
  function Ended(x: SocketState): SocketState {
    if x.destroyed then x else x.(finished := true)
  }

  /** The peer's FIN: it ends the socket too, unless that is half-open. */
  function Finned(x: SocketState): SocketState {
    if x.allowHalfOpen then x.(ended := true) else Ended(x.(ended := true))
  }

  /** stream.write(): dropped by a destroyed socket; a write after end() destroys the socket. */
  function Wrote(x: SocketState, chunk: bytes, now: nat): SocketState {
    if x.destroyed then x
    else if x.finished then x.(destroyed := true)
    else x.(written := x.written + chunk, lastActive := now)
  }

  /** A socket that a server's bind() flushes its buffered head to, if there is any. */
  function Flushed(x: SocketState, head: bytes, now: nat): SocketState {
    if head == [] then x else Wrote(x, head, now)
  }

  /** What an event does to a socket: `own` when it is that socket's event, otherwise its neighbour's. */
  function Hit(x: SocketState, e: Event, own: bool, now: nat, timedOut: bool): SocketState {
    var writes := e.Data? && !own && !x.destroyed;
    var ends := !x.destroyed && (if own then e.End? && !x.allowHalfOpen else e.End? || e.Close?);
    SocketState(
      if e.Data? && own then x.received + e.chunk else x.received,
      if writes && !x.finished then x.written + e.chunk else x.written,
      x.ended || (e.End? && own),
      x.finished || ends,
      x.destroyed || e.Error? || (e.Idle? && !timedOut) || (own && (e.Close? || e.Kill?)) || (writes && x.finished),
      x.closed || (e.Close? && own),
      x.errored || (e.Error? && own),
      x.allowHalfOpen,
      if (e.Data? && own) || (writes && !x.finished) then now else x.lastActive)
  }

  predicate Of(e: Event, side: Side) {
    !e.Wait? && e.side == side
  }

  function Step(s: State, e: Event): State {
    State(
      Hit(s.client, e, Of(e, Client), s.now, s.timedOut),
      Hit(s.target, e, Of(e, Target), s.now, s.timedOut),
      s.idleTimeout,
      s.timedOut || e.Idle?,
      if e.Idle? && !s.timedOut then s.timeouts + 1 else s.timeouts,
      if e.Error? && !Benign(e.code) then s.reported + [e.code] else s.reported,
      if e.Wait? then s.now + e.time else s.now,
      if e.Data? then s.now else s.lastTraffic)
  }

  function Connected(halfOpen: bool, now: nat): SocketState {
    SocketState([], [], false, false, false, false, false, halfOpen, now)
  }

  /** What the runtime guarantees of every socket: "close" comes after destruction. */
  predicate Sound(x: SocketState) {
    x.closed ==> x.destroyed
  }

  /**
   * A socket as tunnel() leaves it: its FIN no longer ends it, its idle timer starts, and a pipe from a
   * source that emitted "end" before ends it, in the next tick.
   */
  function Spliced(x: SocketState, source: SocketState, now: nat): SocketState {
    var x' := x.(received := [], allowHalfOpen := true, lastActive := now);
    if source.ended then Ended(x') else x'
  }

  /** The call tunnel(clientSocket, socket, { idleTimeout }), on the sockets as they are. */
  function Start(client: SocketState, target: SocketState, idleTimeout: nat, now: nat): State {
    State(Spliced(client, target, now), Spliced(target, client, now), idleTimeout, false, 0, [], now, now)
  }

  function Run(s: State, es: seq<Event>): State {
    if es == [] then s else Step(Run(s, es[..|es| - 1]), es[|es| - 1])
  }

  ghost predicate Feasible(s: State, es: seq<Event>) {
    forall i :: 0 <= i < |es| ==> Enabled(Run(s, es[..i]), es[i])
  }

  // ---------------------------------------------------------------- the code

  class Socket {
    var received: bytes
    var written: bytes
    var ended: bool
    var finished: bool
    var destroyed: bool
    var closed: bool
    var errored: bool
    var allowHalfOpen: bool
    var lastActive: nat

    ghost function View(): SocketState
      reads this
    {
      SocketState(received, written, ended, finished, destroyed, closed, errored, allowHalfOpen, lastActive)
    }

    /** A connected socket. */
    constructor (halfOpen: bool, now: nat)
      ensures View() == Connected(halfOpen, now)
    {
      received, written := [], [];
      ended, finished, destroyed, closed, errored := false, false, false, false, false;
      allowHalfOpen, lastActive := halfOpen, now;
    }

    method Write(chunk: bytes, now: nat)
      modifies this
      ensures View() == Wrote(old(View()), chunk, now)
    {
      if destroyed {
        return;
      }
      if finished {
        destroyed := true;  // write after end
        return;
      }
      written := written + chunk;
      lastActive := now;
    }

    method EndWriting()
      modifies this
      ensures View() == Ended(old(View()))
    {
      if !destroyed {
        finished := true;
      }
    }

    /** allowHalfOpen = true, setTimeout, and nothing read by the tunnel yet. */
    method Adopt(now: nat)
      modifies this
      ensures View() == old(View()).(received := [], allowHalfOpen := true, lastActive := now)
    {
      allowHalfOpen, lastActive, received := true, now, [];
    }

    method EndReading()
      modifies this
      ensures View() == Finned(old(View()))
    {
      ended := true;
      if !allowHalfOpen {
        EndWriting();
      }
    }

    method Destroy()
      modifies this
      ensures View() == old(View()).(destroyed := true)
    {
      destroyed := true;
    }

    method Close()
      modifies this
      ensures View() == old(View()).(destroyed := true, closed := true)
    {
      destroyed, closed := true, true;
    }

    method Fail()
      modifies this
      ensures View() == old(View()).(destroyed := true, errored := true)
    {
      destroyed, errored := true, true;
    }
  }

  class Tunnel {
    const clientSocket: Socket
    const socket: Socket
    const idleTimeout: nat
    var timedOut: bool
    var timeouts: nat
    var reported: seq<string>
    var now: nat
    ghost var lastTraffic: nat

    ghost predicate Valid() {
      clientSocket != socket
    }

    ghost function View(): State
      reads this, clientSocket, socket
    {
      State(clientSocket.View(), socket.View(), idleTimeout, timedOut, timeouts, reported, now, lastTraffic)
    }

    function SocketOf(side: Side): Socket {
      if side.Client? then clientSocket else socket
    }

    constructor (clientSocket: Socket, socket: Socket, idleTimeout: nat, now: nat)
      requires clientSocket != socket
      modifies clientSocket, socket
      ensures Valid()
      ensures this.clientSocket == clientSocket && this.socket == socket
      ensures View() == Start(old(clientSocket.View()), old(socket.View()), idleTimeout, now)
    {
      this.clientSocket, this.socket, this.idleTimeout := clientSocket, socket, idleTimeout;
      timedOut, timeouts, reported := false, 0, [];
      this.now, lastTraffic := now, now;
      new;
      socket.Adopt(now);
      clientSocket.Adopt(now);
      // socket.pipe(clientSocket) and clientSocket.pipe(socket)
      if socket.ended {
        clientSocket.EndWriting();
      }
      if clientSocket.ended {
        socket.EndWriting();
      }
    }

    /** The clock moves on. */
    method Elapse(time: nat)
      modifies this`now
      ensures View() == Step(old(View()), Wait(time))
    {
      now := now + time;
    }

    method Destroy()
      requires Valid()
      modifies clientSocket, socket
      ensures View() == old(View()).DestroyBoth()
    {
      socket.Destroy();
      clientSocket.Destroy();
    }

    method OnData(side: Side, chunk: bytes)
      requires Valid() && Enabled(View(), Data(side, chunk))
      modifies this`lastTraffic, clientSocket, socket
      ensures View() == Step(old(View()), Data(side, chunk))
    {
      var from, to := SocketOf(side), SocketOf(side.Other());
      from.received := from.received + chunk;
      from.lastActive := now;
      to.Write(chunk, now);
      lastTraffic := now;
    }

    method OnEnd(side: Side)
      requires Valid() && Enabled(View(), End(side))
      modifies clientSocket, socket
      ensures View() == Step(old(View()), End(side))
    {
      SocketOf(side).EndReading();
      SocketOf(side.Other()).EndWriting();
    }

    method Report(code: string)
      modifies this`reported
      ensures reported == if Benign(code) then old(reported) else old(reported) + [code]
    {
      if !Benign(code) {
        reported := reported + [code];
      }
    }

    method OnError(side: Side, code: string)
      requires Valid() && Enabled(View(), Error(side, code))
      modifies this`reported, clientSocket, socket
      ensures View() == Step(old(View()), Error(side, code))
    {
      SocketOf(side).Fail();
      Report(code);
      Destroy();
    }

    method OnClose(side: Side)
      requires Valid() && Enabled(View(), Close(side))
      modifies clientSocket, socket
      ensures View() == Step(old(View()), Close(side))
    {
      SocketOf(side).Close();
      SocketOf(side.Other()).EndWriting();
    }

    method OnIdle(side: Side)
      requires Valid() && Enabled(View(), Idle(side))
      modifies this`timedOut, this`timeouts, clientSocket, socket
      ensures View() == Step(old(View()), Idle(side))
    {
      if timedOut {
        return;
      }
      timedOut := true;
      Destroy();
      timeouts := timeouts + 1;
    }
  }

  // ---------------------------------------------------------------- what a list of events says by itself

  /** The bytes a side sent. */
  function Sent(es: seq<Event>, side: Side): bytes {
    if es == [] then []
    else
      var e := es[|es| - 1];
      Sent(es[..|es| - 1], side) + (if e.Data? && e.side == side then e.chunk else [])
  }

  /** The codes of its errors, in order, but for the three that are teardown noise. */
  function Reportable(es: seq<Event>): seq<string> {
    if es == [] then []
    else
      var e := es[|es| - 1];
      Reportable(es[..|es| - 1])
      + (if e.Error? && e.code != "ECONNRESET" && e.code != "EPIPE" && e.code != "ERR_STREAM_WRITE_AFTER_END"
         then [e.code] else [])
  }

  /** How long ago the last chunk passed in either direction; since the start, before any. */
  function Quiet(es: seq<Event>): nat {
    if es == [] then 0
    else
      match es[|es| - 1]
      case Data(_, _) => 0
      case Wait(time) => Quiet(es[..|es| - 1]) + time
      case _ => Quiet(es[..|es| - 1])
  }

  predicate Expired(es: seq<Event>) {
    Idle(Client) in es || Idle(Target) in es
  }

  lemma StepSide(s: State, e: Event, side: Side)
    ensures var x, y := s.At(side), Step(s, e).At(side);
            && y.received == (if e.Data? && e.side == side then x.received + e.chunk else x.received)
            && (y.ended <==> x.ended || e == End(side))
            && (y.closed <==> x.closed || e == Close(side))
  {
  }

  lemma {:induction false} SentHistory(s: State, es: seq<Event>, side: Side)
    ensures Run(s, es).At(side).received == s.At(side).received + Sent(es, side)
    decreases |es|
  {
    if es == [] {
      assert s.At(side).received + [] == s.At(side).received;
    } else {
      var init, e := es[..|es| - 1], es[|es| - 1];
      SentHistory(s, init, side);
      StepSide(Run(s, init), e, side);
      Assoc(s.At(side).received, Sent(init, side), if e.Data? && e.side == side then e.chunk else []);
    }
  }

  lemma {:induction false} OverHistory(s: State, es: seq<Event>, side: Side)
    ensures Run(s, es).At(side).ended <==> s.At(side).ended || End(side) in es
    ensures Run(s, es).At(side).closed <==> s.At(side).closed || Close(side) in es
    decreases |es|
  {
    if es != [] {
      var init, e := es[..|es| - 1], es[|es| - 1];
      assert es == init + [e];
      OverHistory(s, init, side);
      StepSide(Run(s, init), e, side);
    }
  }

  lemma BenignIsLiteral(code: string)
    ensures Benign(code) <==> code == "ECONNRESET" || code == "EPIPE" || code == "ERR_STREAM_WRITE_AFTER_END"
  {
  }

  lemma {:induction false} CallbackHistory(s: State, es: seq<Event>)
    requires s.timeouts == (if s.timedOut then 1 else 0)
    ensures var t := Run(s, es);
            && t.reported == s.reported + Reportable(es)
            && (t.timedOut <==> s.timedOut || Expired(es))
            && t.timeouts == (if t.timedOut then 1 else 0)
    decreases |es|
  {
    if es == [] {
      assert s.reported + [] == s.reported;
    } else {
      var init, e := es[..|es| - 1], es[|es| - 1];
      assert es == init + [e];
      CallbackHistory(s, init);
      if e.Error? {
        BenignIsLiteral(e.code);
      }
    }
  }

  lemma {:induction false} QuietHistory(s: State, es: seq<Event>)
    requires s.now == s.lastTraffic
    ensures Run(s, es).now == Run(s, es).lastTraffic + Quiet(es)
    decreases |es|
  {
    if es != [] {
      QuietHistory(s, es[..|es| - 1]);
    }
  }

  // ---------------------------------------------------------------- conservation

  /** Ended or destroyed: nothing can be written to it any more. */
  predicate Down(x: SocketState) {
    x.finished || x.destroyed
  }

  /**
   * One direction's bytes: what was written across is, after what had been written before, what was
   * read, in order. It can only lag behind once the writing socket is destroyed, and never when it was
   * the tunnel that ended it.
   */
  ghost predicate Carries(from: SocketState, to: SocketState, to0: SocketState) {
    && to0.written <= to.written <= to0.written + from.received
    && (!to.destroyed || (to.finished && !to0.finished) ==> to.written == to0.written + from.received)
    && (to0.destroyed ==> to.written == to0.written)
  }

  /** One direction's end: only a source that is over ends its sink, and when it is, it does. */
  ghost predicate Signals(from: SocketState, to: SocketState, from0: SocketState, to0: SocketState) {
    && (to.finished && !to0.finished ==> from.ended || from.destroyed)
    && (to0.destroyed ==> to.destroyed && (to.finished ==> to0.finished))
    && (from.ended ==> Down(to)) && (from0.ended ==> from.ended)
    && (from.closed && !from0.closed ==> Down(to))
  }

  /** The clocks: an open socket was last active no earlier than the last chunk either way. */
  ghost predicate Timed(s: State) {
    && s.lastTraffic <= s.now
    && (!s.client.destroyed ==> s.client.lastActive >= s.lastTraffic)
    && (!s.target.destroyed ==> s.target.lastActive >= s.lastTraffic)
    && (!s.client.destroyed && !s.target.destroyed ==>
          s.client.lastActive == s.lastTraffic && s.target.lastActive == s.lastTraffic)
  }

  /** How the two sockets go down, and what was reported of it. */
  ghost predicate Coupled(s: State, client: SocketState, target: SocketState) {
    && s.timeouts == (if s.timedOut then 1 else 0)
    && (s.timedOut || (s.client.errored && !client.errored) || (s.target.errored && !target.errored)
        ==> s.client.destroyed && s.target.destroyed)
    && s.client.allowHalfOpen && Sound(s.client)
    && s.target.allowHalfOpen && Sound(s.target)
  }

  ghost predicate Inv(s: State, client: SocketState, target: SocketState) {
    && Carries(s.client, s.target, target) && Signals(s.client, s.target, client, target)
    && Carries(s.target, s.client, client) && Signals(s.target, s.client, target, client)
    && Timed(s)
    && Coupled(s, client, target)
  }

  lemma DataCarries(from: SocketState, to: SocketState, e: Event, now: nat, timedOut: bool, to0: SocketState)
    requires Carries(from, to, to0) && e.Data? && (to.finished ==> to0.finished) && (to0.destroyed ==> to.destroyed)
    ensures Carries(Hit(from, e, true, now, timedOut), Hit(to, e, false, now, timedOut), to0)
  {
    Assoc(to0.written, from.received, e.chunk);
  }

  lemma BackDataCarries(from: SocketState, to: SocketState, e: Event, now: nat, timedOut: bool, to0: SocketState)
    requires Carries(from, to, to0) && e.Data?
    ensures Carries(Hit(from, e, false, now, timedOut), Hit(to, e, true, now, timedOut), to0)
  {
  }

  lemma QuietCarries(from: SocketState, to: SocketState, e: Event, own: bool, other: bool, now: nat, timedOut: bool,
                     to0: SocketState)
    requires Carries(from, to, to0) && !e.Data?
    ensures Carries(Hit(from, e, own, now, timedOut), Hit(to, e, other, now, timedOut), to0)
  {
  }

  lemma {:induction false} StepCarries(s: State, e: Event, from: Side, from0: SocketState, to0: SocketState)
    requires Enabled(s, e)
    requires Carries(s.At(from), s.At(from.Other()), to0) && Signals(s.At(from), s.At(from.Other()), from0, to0)
    ensures Carries(Step(s, e).At(from), Step(s, e).At(from.Other()), to0)
  {
    var x, y := s.At(from), s.At(from.Other());
    if !e.Data? {
      QuietCarries(x, y, e, Of(e, from), Of(e, from.Other()), s.now, s.timedOut, to0);
    } else if e.side == from {
      DataCarries(x, y, e, s.now, s.timedOut, to0);
    } else {
      BackDataCarries(x, y, e, s.now, s.timedOut, to0);
    }
  }

  lemma {:induction false} StepSignals(s: State, e: Event, from: Side, from0: SocketState, to0: SocketState)
    requires Enabled(s, e) && s.client.allowHalfOpen && s.target.allowHalfOpen
    requires Signals(s.At(from), s.At(from.Other()), from0, to0)
    ensures Signals(Step(s, e).At(from), Step(s, e).At(from.Other()), from0, to0)
  {
  }

  lemma {:induction false} StepTimed(s: State, e: Event)
    requires Timed(s) && Enabled(s, e)
    ensures Timed(Step(s, e))
  {
  }

  lemma {:induction false} StepCoupled(s: State, e: Event, client: SocketState, target: SocketState)
    requires Coupled(s, client, target) && Enabled(s, e)
    ensures Coupled(Step(s, e), client, target)
  {
  }

  lemma {:induction false} StepInv(s: State, e: Event, client: SocketState, target: SocketState)
    requires Inv(s, client, target) && Enabled(s, e)
    ensures Inv(Step(s, e), client, target)
  {
    StepCarries(s, e, Client, client, target);
    StepCarries(s, e, Target, target, client);
    StepSignals(s, e, Client, client, target);
    StepSignals(s, e, Target, target, client);
    StepTimed(s, e);
    StepCoupled(s, e, client, target);
  }

  lemma StartInv(client: SocketState, target: SocketState, idle: nat, start: nat)
    requires Sound(client) && Sound(target)
    ensures Inv(Start(client, target, idle, start), client, target)
  {
  }

  lemma {:induction false} RunKeepsInv(s: State, client: SocketState, target: SocketState, es: seq<Event>)
    requires Inv(s, client, target) && Feasible(s, es)
    ensures Inv(Run(s, es), client, target)
    decreases |es|
  {
    if es != [] {
      var init := es[..|es| - 1];
      assert forall i :: 0 <= i < |init| ==> es[..i] == init[..i];
      RunKeepsInv(s, client, target, init);
      StepInv(Run(s, init), es[|es| - 1], client, target);
    }
  }

  lemma RunInv(client: SocketState, target: SocketState, idle: nat, start: nat, es: seq<Event>)
    requires Sound(client) && Sound(target) && Feasible(Start(client, target, idle, start), es)
    ensures Inv(Run(Start(client, target, idle, start), es), client, target)
  {
    StartInv(client, target, idle, start);
    RunKeepsInv(Start(client, target, idle, start), client, target, es);
  }

  /**
   * Byte conservation over all runs, whatever state the two sockets were in. After what it had been
   * written before, each side was written a prefix, in order, of what the other side sent; nothing is
   * missing while it stands, nor ever when it is the tunnel that ended it. A FIN read, before the
   * tunnel or during it, is forwarded: the other socket is ended, unless it is destroyed already.
   */
  lemma {:induction false} BytesConserved(
      client: SocketState, target: SocketState, idle: nat, start: nat, es: seq<Event>)
    requires Sound(client) && Sound(target) && Feasible(Start(client, target, idle, start), es)
    ensures var s := Run(Start(client, target, idle, start), es);
            && target.written <= s.target.written <= target.written + Sent(es, Client)
            && client.written <= s.client.written <= client.written + Sent(es, Target)
            && (!s.target.destroyed || (s.target.finished && !target.finished)
                ==> s.target.written == target.written + Sent(es, Client))
            && (!s.client.destroyed || (s.client.finished && !client.finished)
                ==> s.client.written == client.written + Sent(es, Target))
            && (client.ended || End(Client) in es ==> Down(s.target))
            && (target.ended || End(Target) in es ==> Down(s.client))
  {
    RunInv(client, target, idle, start, es);
    StartHistory(client, target, idle, start, es, Client);
    StartHistory(client, target, idle, start, es, Target);
  }

  lemma StartHistory(client: SocketState, target: SocketState, idle: nat, start: nat, es: seq<Event>, side: Side)
    ensures var x := Run(Start(client, target, idle, start), es).At(side);
            && x.received == Sent(es, side)
            && (x.ended <==> Given(client, target, side).ended || End(side) in es)
            && (x.closed <==> Given(client, target, side).closed || Close(side) in es)
  {
    SentHistory(Start(client, target, idle, start), es, side);
    OverHistory(Start(client, target, idle, start), es, side);
    assert [] + Sent(es, side) == Sent(es, side);
  }

  // ---------------------------------------------------------------- closes, and the one that is missed

  function Given(client: SocketState, target: SocketState, side: Side): SocketState {
    if side.Client? then client else target
  }

  /** Closed without a FIN having been read: its "close" is over, and there is no "end" to come. */
  predicate Missed(x: SocketState) {
    x.closed && !x.ended
  }

  lemma DownStays(x: SocketState, e: Event, own: bool, now: nat, timedOut: bool)
    requires Down(x)
    ensures Down(Hit(x, e, own, now, timedOut))
  {
  }

  lemma {:induction false} DownForGood(s: State, es: seq<Event>, side: Side)
    requires Down(s.At(side))
    ensures Down(Run(s, es).At(side))
    decreases |es|
  {
    if es != [] {
      DownForGood(s, es[..|es| - 1], side);
      var t, e := Run(s, es[..|es| - 1]), es[|es| - 1];
      DownStays(t.At(side), e, Of(e, side), t.now, t.timedOut);
    }
  }

  /** In every run in which the socket has closed, the other one is down. */
  ghost predicate AlwaysForwarded(s: State, side: Side) {
    forall es :: Feasible(s, es) && (s.At(side).closed || Close(side) in es) ==> Down(Run(s, es).At(side.Other()))
  }

  /** Forwarded in every run if and only if it was not missed by the start. */
  lemma AlwaysForwardedFrom(s: State, client: SocketState, target: SocketState, side: Side)
    requires Inv(s, client, target) && (Missed(s.At(side)) <==> Missed(Given(client, target, side)))
    ensures AlwaysForwarded(s, side) <==> (Missed(s.At(side)) ==> Down(s.At(side.Other())))
  {
    if Missed(s.At(side)) && !Down(s.At(side.Other())) {
      assert Feasible(s, []) && !Down(Run(s, []).At(side.Other()));
    } else {
      forall es | Feasible(s, es) && (s.At(side).closed || Close(side) in es)
        ensures Down(Run(s, es).At(side.Other()))
      {
        RunKeepsInv(s, client, target, es);
        OverHistory(s, es, side);
        if Down(s.At(side.Other())) {
          DownForGood(s, es, side.Other());
        }
      }
    }
  }

  /**
   * A socket's close is forwarded in every run if and only if, when tunnel() was called, its close was
   * still to come, or its FIN had been read, or there was nothing left to end on the other side.
   */
  lemma CloseForwardedExactly(client: SocketState, target: SocketState, idle: nat, start: nat, side: Side)
    requires Sound(client) && Sound(target)
    ensures AlwaysForwarded(Start(client, target, idle, start), side)
            <==> (Missed(Given(client, target, side)) ==> Down(Given(client, target, side.Other())))
  {
    StartInv(client, target, idle, start);
    AlwaysForwardedFrom(Start(client, target, idle, start), client, target, side);
  }

  /** Nobody but an error, a timer or an outsider takes down the socket left behind. */
  predicate Spares(e: Event, side: Side) {
    !e.Error? && !e.Idle? && e != Kill(side)
  }

  /** That side's close was missed, and the other one is still up. */
  predicate Stranded(s: State, side: Side) {
    Missed(s.At(side)) && !Down(s.At(side.Other()))
  }

  lemma StepStranded(s: State, e: Event, side: Side)
    requires Stranded(s, side) && Sound(s.At(side)) && s.At(side.Other()).allowHalfOpen
    requires Enabled(s, e) && Spares(e, side.Other())
    ensures Stranded(Step(s, e), side)
  {
  }

  lemma {:induction false} StrandedRun(
      s: State, client: SocketState, target: SocketState, es: seq<Event>, side: Side)
    requires Inv(s, client, target) && Feasible(s, es) && Stranded(s, side)
    requires forall i :: 0 <= i < |es| ==> Spares(es[i], side.Other())
    ensures Stranded(Run(s, es), side)
    decreases |es|
  {
    if es != [] {
      var init := es[..|es| - 1];
      assert forall i :: 0 <= i < |init| ==> es[..i] == init[..i];
      StrandedRun(s, client, target, init, side);
      RunKeepsInv(s, client, target, init);
      StepStranded(Run(s, init), es[|es| - 1], side);
    }
  }

  /**
   * After a missed close the other socket is left behind: however long the run, it is neither ended
   * nor destroyed until an error, an idle timer or someone outside the tunnel destroys it.
   */
  lemma {:induction false} StrandedStays(
      client: SocketState, target: SocketState, idle: nat, start: nat, es: seq<Event>, side: Side)
    requires Sound(client) && Sound(target) && Feasible(Start(client, target, idle, start), es)
    requires Missed(Given(client, target, side)) && !Down(Given(client, target, side.Other()))
    requires forall i :: 0 <= i < |es| ==> Spares(es[i], side.Other())
    ensures Stranded(Run(Start(client, target, idle, start), es), side)
  {
    StartInv(client, target, idle, start);
    StrandedRun(Start(client, target, idle, start), client, target, es, side);
  }

  // ---------------------------------------------------------------- teardown

  lemma DestroyedIsSilent(x: SocketState, e: Event, own: bool, now: nat, timedOut: bool)
    requires x.destroyed
    ensures var y := Hit(x, e, own, now, timedOut); y.destroyed && y.written == x.written
  {
  }

  lemma {:induction false} DestroyedForGood(s: State, es: seq<Event>, side: Side)
    requires s.At(side).destroyed
    ensures Run(s, es).At(side).destroyed && Run(s, es).At(side).written == s.At(side).written
    decreases |es|
  {
    if es != [] {
      DestroyedForGood(s, es[..|es| - 1], side);
      var t, e := Run(s, es[..|es| - 1]), es[|es| - 1];
      DestroyedIsSilent(t.At(side), e, Of(e, side), t.now, t.timedOut);
    }
  }

  /**
   * An error or an idle expiry, whenever it comes, takes both sockets down in the same step and for
   * good: whatever follows, neither stands again nor is written another byte.
   */
  lemma {:induction false} AbortDestroysBoth(
      client: SocketState, target: SocketState, idle: nat, start: nat, es: seq<Event>, e: Event, more: seq<Event>)
    requires Sound(client) && Sound(target) && Feasible(Start(client, target, idle, start), es)
    requires Enabled(Run(Start(client, target, idle, start), es), e) && (e.Error? || e.Idle?)
    ensures var s := Run(Start(client, target, idle, start), es); var t := Run(Step(s, e), more);
            && t.client.destroyed && t.client.written == s.client.written
            && t.target.destroyed && t.target.written == s.target.written
  {
    var s := Run(Start(client, target, idle, start), es);
    RunInv(client, target, idle, start, es);
    DestroyedForGood(Step(s, e), more, Client);
    DestroyedForGood(Step(s, e), more, Target);
  }

  /**
   * The callbacks over all runs. onTimeout was called once if a timer fired, however many did, and never
   * otherwise, and then both sockets are down; onError was given the codes of the run's errors, in order,
   * except the three that are teardown noise.
   */
  lemma {:induction false} CallbacksExact(
      client: SocketState, target: SocketState, idle: nat, start: nat, es: seq<Event>)
    requires Sound(client) && Sound(target) && Feasible(Start(client, target, idle, start), es)
    ensures var s := Run(Start(client, target, idle, start), es);
            && s.timeouts == (if Expired(es) then 1 else 0)
            && (Expired(es) ==> s.client.destroyed && s.target.destroyed)
            && s.reported == Reportable(es)
  {
    RunInv(client, target, idle, start, es);
    CallbackHistory(Start(client, target, idle, start), es);
    assert [] + Reportable(es) == Reportable(es);
  }

  lemma {:induction false} IdleTimeoutKept(s: State, es: seq<Event>)
    ensures Run(s, es).idleTimeout == s.idleTimeout
    decreases |es|
  {
    if es != [] {
      IdleTimeoutKept(s, es[..|es| - 1]);
    }
  }

  /**
   * Idle teardown is exact: while both sockets are open a timer is due if and only if neither
   * direction saw a chunk for idleTimeout; and no run is torn down sooner than that.
   */
  lemma {:induction false} IdleIsExact(
      client: SocketState, target: SocketState, idle: nat, start: nat, es: seq<Event>, side: Side)
    requires Sound(client) && Sound(target) && Feasible(Start(client, target, idle, start), es)
    ensures var s := Run(Start(client, target, idle, start), es);
            && (!s.client.destroyed && !s.target.destroyed ==>
                  (Enabled(s, Idle(side)) <==> idle > 0 && Quiet(es) >= idle))
            && (Enabled(s, Idle(side)) && !Expired(es) ==> Quiet(es) >= idle)
  {
    RunInv(client, target, idle, start, es);
    IdleTimeoutKept(Start(client, target, idle, start), es);
    CallbackHistory(Start(client, target, idle, start), es);
    QuietHistory(Start(client, target, idle, start), es);
  }

  // ---------------------------------------------------------------- half-close

  predicate Graceful(e: Event) {
    e.Data? || e.End? || e.Close? || e.Wait?
  }

  /** Two sockets that are up are spliced, and then nothing but data, FINs and closes happens. */
  ghost predicate GracefulRun(client: SocketState, target: SocketState, idle: nat, start: nat, es: seq<Event>) {
    && Sound(client) && Sound(target) && !Down(client) && !Down(target)
    && Feasible(Start(client, target, idle, start), es)
    && forall i :: 0 <= i < |es| ==> Graceful(es[i])
  }

  /** A FIN is forwarded exactly when it was read, and no socket goes before both FINs were read. */
  ghost predicate Orderly(s: State) {
    && (s.client.finished <==> s.target.ended)
    && (s.target.finished <==> s.client.ended)
    && (s.client.destroyed || s.target.destroyed ==> s.client.ended && s.target.ended)
  }

  lemma StepOrderly(s: State, e: Event)
    requires Orderly(s) && s.client.allowHalfOpen && s.target.allowHalfOpen && Enabled(s, e) && Graceful(e)
    ensures Orderly(Step(s, e))
  {
  }

  lemma {:induction false} RunOrderly(client: SocketState, target: SocketState, idle: nat, start: nat, es: seq<Event>)
    requires GracefulRun(client, target, idle, start, es)
    ensures Orderly(Run(Start(client, target, idle, start), es))
    decreases |es|
  {
    if es != [] {
      var init := es[..|es| - 1];
      assert forall i :: 0 <= i < |init| ==> es[..i] == init[..i];
      RunOrderly(client, target, idle, start, init);
      RunInv(client, target, idle, start, init);
      StepOrderly(Run(Start(client, target, idle, start), init), es[|es| - 1]);
    }
  }

  /** The side's FIN was read, before the tunnel or in the run. */
  predicate Over(client: SocketState, target: SocketState, es: seq<Event>, side: Side) {
    Given(client, target, side).ended || End(side) in es
  }

  /**
   * Without errors, timeouts or outside kills: a FIN is forwarded exactly when it was read, and
   * no socket goes away before both FINs were read.
   */
  lemma {:induction false} GracefulRunIsOrderly(
      client: SocketState, target: SocketState, idle: nat, start: nat, es: seq<Event>)
    requires GracefulRun(client, target, idle, start, es)
    ensures var s := Run(Start(client, target, idle, start), es);
            && (s.client.finished <==> Over(client, target, es, Target))
            && (s.target.finished <==> Over(client, target, es, Client))
            && (s.client.destroyed || s.target.destroyed
                ==> Over(client, target, es, Client) && Over(client, target, es, Target))
  {
    RunOrderly(client, target, idle, start, es);
    StartHistory(client, target, idle, start, es, Client);
    StartHistory(client, target, idle, start, es, Target);
  }

  /**
   * A half-close keeps the reverse direction: after one FIN, with the other side not finished, both
   * sockets stand, and a later chunk of that other side is delivered in full.
   */
  lemma {:induction false} HalfCloseKeepsReverse(
      client: SocketState, target: SocketState, idle: nat, start: nat, es: seq<Event>, side: Side, reply: bytes)
    requires GracefulRun(client, target, idle, start, es) && reply != []
    requires Over(client, target, es, side) && !Over(client, target, es, side.Other())
    ensures var s := Run(Start(client, target, idle, start), es);
            && !s.client.destroyed && !s.target.destroyed
            && s.At(side.Other()).finished && !s.At(side).finished
            && Enabled(s, Data(side.Other(), reply))
            && Step(s, Data(side.Other(), reply)).At(side).written == s.At(side).written + reply
  {
    GracefulRunIsOrderly(client, target, idle, start, es);
    StartHistory(client, target, idle, start, es, side.Other());
  }

  /** And a graceful run loses nothing, in either direction, up to and including both closes. */
  lemma {:induction false} GracefulRunDelivers(
      client: SocketState, target: SocketState, idle: nat, start: nat, es: seq<Event>)
    requires GracefulRun(client, target, idle, start, es)
    ensures var s := Run(Start(client, target, idle, start), es);
            && s.target.written == target.written + Sent(es, Client)
            && s.client.written == client.written + Sent(es, Target)
  {
    GracefulRunIsOrderly(client, target, idle, start, es);
    BytesConserved(client, target, idle, start, es);
  }
}
