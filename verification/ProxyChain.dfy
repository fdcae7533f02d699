/**
 * The chain client (src/proxy/client/chain/index.js): one hop client per proxy, each dialling
 * through the socket the hop before it opened.
 */
module ProxyChain {
  import opened Bytes

  /** protocol as in URL.protocol, with its colon. */
  datatype Url = Url(protocol: string, host: string)

  datatype Client = Forward | Socks5 | Reverse

  /** The proxies a socket really runs through, and the host at its far end. */
  datatype Route = Route(via: seq<Url>, end: Url)

  class Socket {
    const route: Route
    var destroyed: bool

    constructor (route: Route)
      ensures this.route == route && !destroyed
    {
      this.route := route;
      destroyed := false;
    }

    method Destroy()
      modifies this
      ensures destroyed
    {
      destroyed := true;
    }
  }

  /** The caller's options; family 0 and no lookup count as absent. */
  datatype Options = Options(lookup: Option<nat>, family: nat)

  datatype HopOptions = HopOptions(socket: Option<Socket>, lookup: Option<nat>, family: nat)

  datatype Hop = Hop(proxy: Url, target: Url)

  /** One call of a hop client. */
  datatype Dial = Dial(client: Client, proxy: Url, target: Url, opts: HopOptions)

  /** What the network does to a dial. */
  datatype Answer = Connects | Refuses(reason: string)

  datatype Result = Connected(socket: Socket) | Failed(error: string)

  // ---------------------------------------------------------------- choosing the client

  /** s.split(":")[0] */
  function BeforeColon(s: string): (r: string)
    ensures r <= s && ':' !in r && (r == s || s[|r|] == ':')
  {
    if s == "" || s[0] == ':' then "" else [s[0]] + BeforeColon(s[1..])
  }

  function ClientFor(proxy: Url): Option<Client> {
    var protocol := BeforeColon(proxy.protocol);
    if protocol == "http" || protocol == "https" then Some(Forward)
    else if protocol == "socks5" then Some(Socks5)
    else None
  }

  /** Where hop i leads: the next proxy, or the target after the last one. */
  function TargetOf(proxies: seq<Url>, target: Url, i: nat): Url
    requires i < |proxies|
  {
    if i < |proxies| - 1 then proxies[i + 1] else target
  }

  function Hops(proxies: seq<Url>, target: Url): seq<Hop> {
    seq(|proxies|, i requires 0 <= i < |proxies| => Hop(proxies[i], TargetOf(proxies, target, i)))
  }

  // ---------------------------------------------------------------- running it

  /**
   * A hop client: without a socket it connects to its proxy; with one it asks whoever is at that
   * socket's far end. Either way that host is asked to connect to the target.
   */
  method Call(dial: Dial, answer: Answer) returns (r: Result)
    ensures answer.Refuses? ==> r == Failed(answer.reason)
    ensures answer.Connects? ==> r.Connected? && fresh(r.socket) && !r.socket.destroyed
                                 && r.socket.route == Reached(dial)
  {
    if answer.Refuses? {
      return Failed(answer.reason);
    }
    var socket := new Socket(Reached(dial));
    return Connected(socket);
  }

  function Reached(dial: Dial): Route {
    if dial.client.Reverse? then Route([], dial.target)
    else if dial.opts.socket.None? then Route([dial.proxy], dial.target)
    else
      var through := dial.opts.socket.value.route;
      Route(through.via + [through.end], dial.target)
  }

  /** What precedes the first colon of the proxy's protocol is one of the three that have a client. */
  predicate Supported(proxy: Url) {
    var protocol := BeforeColon(proxy.protocol);
    protocol == "http" || protocol == "https" || protocol == "socks5"
  }

  /** Hop i cannot be made: its protocol has no client, or the network refuses it. */
  predicate Breaks(proxies: seq<Url>, answers: seq<Answer>, i: nat)
    requires i < |proxies| <= |answers|
  {
    !Supported(proxies[i]) || answers[i].Refuses?
  }

  /** What a broken hop i rejects with: no client for its protocol, or its own refusal. */
  function ErrorAt(proxies: seq<Url>, answers: seq<Answer>, i: nat): string
    requires i < |proxies| <= |answers| && Breaks(proxies, answers, i)
  {
    if Supported(proxies[i]) then answers[i].reason
    else "Unsupported proxy protocol: " + BeforeColon(proxies[i].protocol)
  }

  /** The client the proxy's protocol names: SOCKS5 for socks5, CONNECT for http and https. */
  predicate ClientAsNamed(client: Client, proxy: Url) {
    var protocol := BeforeColon(proxy.protocol);
    && (client == Socks5 <==> protocol == "socks5")
    && (client == Forward <==> protocol == "http" || protocol == "https")
  }

  /**
   * The dial hop i must make: the client by the protocol's name, from that proxy to the next one or to
   * the target; only the first sees lookup and family, and each other one only the last socket.
   */
  predicate DialThrough(proxies: seq<Url>, target: Url, opts: Options, dial: Dial, socket: Option<Socket>, i: nat) {
    && i < |proxies| && Supported(proxies[i]) && ClientAsNamed(dial.client, proxies[i])
    && dial.proxy == proxies[i]
    && dial.target == (if i + 1 < |proxies| then proxies[i + 1] else target)
    && dial.opts == (if i == 0 then HopOptions(None, opts.lookup, opts.family) else HopOptions(socket, None, 0))
  }

  ghost predicate DialAsMeant(proxies: seq<Url>, target: Url, opts: Options, dial: Dial, made: seq<Socket>, i: nat) {
    i <= |made| && DialThrough(proxies, target, opts, dial, if i == 0 then None else Some(made[i - 1]), i)
  }

  /** The dials made so far, each as it must be. */
  ghost predicate DialsAsMeant(proxies: seq<Url>, target: Url, opts: Options, log: seq<Dial>, made: seq<Socket>) {
    forall i :: 0 <= i < |log| ==> DialAsMeant(proxies, target, opts, log[i], made, i)
  }

  /** Socket i runs through the first i + 1 proxies, in order, to where hop i leads. */
  ghost predicate RoutesAsMeant(proxies: seq<Url>, target: Url, answers: seq<Answer>, made: seq<Socket>) {
    |made| <= |proxies| <= |answers| && forall i :: 0 <= i < |made| ==>
      !Breaks(proxies, answers, i)
      && made[i].route == Route(proxies[..i + 1], if i + 1 < |proxies| then proxies[i + 1] else target)
  }

  /** The first broken hop stopped the chain: dialled if it had a client, and nothing after it. */
  ghost predicate BrokeAt(proxies: seq<Url>, answers: seq<Answer>, log: seq<Dial>, k: nat) {
    && k < |proxies| <= |answers| && Breaks(proxies, answers, k)
    && |log| == k + (if Supported(proxies[k]) then 1 else 0)
  }

  method DestroyAll(sockets: seq<Socket>)
    modifies sockets
    ensures forall i :: 0 <= i < |sockets| ==> sockets[i].destroyed
  {
    for i := 0 to |sockets|
      invariant forall j :: 0 <= j < i ==> sockets[j].destroyed
    {
      sockets[i].Destroy();
    }
  }

  /** One step of the fold, on the socket the step before resolved with. */
  method MakeHop(proxies: seq<Url>, target: Url, opts: Options, answer: Answer, i: nat, socket: Option<Socket>)
      returns (r: Result, dialled: Option<Dial>)
    requires i < |proxies| && (socket.None? <==> i == 0)
    ensures dialled.Some? <==> Supported(proxies[i])
    ensures dialled.Some? ==> DialThrough(proxies, target, opts, dialled.value, socket, i)
    ensures r.Failed? <==> dialled.None? || answer.Refuses?
    ensures r.Failed? ==> r.error == if dialled.Some? then answer.reason
                                      else "Unsupported proxy protocol: " + BeforeColon(proxies[i].protocol)
    ensures r.Connected? ==> fresh(r.socket) && !r.socket.destroyed && r.socket.route == Reached(dialled.value)
  {
    var hop := Hops(proxies, target)[i];
    var hopOpts := HopOptions(None, None, 0);
    if i == 0 {
      hopOpts := hopOpts.(lookup := opts.lookup, family := opts.family);
    } else {
      hopOpts := hopOpts.(socket := socket);
    }
    var client := ClientFor(hop.proxy);
    if client.None? {
      return Failed("Unsupported proxy protocol: " + BeforeColon(hop.proxy.protocol)), None;
    }
    var dial := Dial(client.value, hop.proxy, hop.target, hopOpts);
    r := Call(dial, answer);
    dialled := Some(dial);
  }

  /** Each hop lengthens the route by its own proxy. */
  lemma RouteGrows(proxies: seq<Url>, target: Url, opts: Options, answers: seq<Answer>, made: seq<Socket>,
                   dial: Dial, next: Socket)
    requires |made| < |proxies| && RoutesAsMeant(proxies, target, answers, made)
    requires !Breaks(proxies, answers, |made|)
    requires DialAsMeant(proxies, target, opts, dial, made, |made|) && next.route == Reached(dial)
    ensures RoutesAsMeant(proxies, target, answers, made + [next])
  {
    var i := |made|;
    if i > 0 {
      assert made[i - 1].route == Route(proxies[..i], proxies[i]);
    }
    assert proxies[..i + 1] == proxies[..i] + [proxies[i]];
  }

  /** The fold: hops in order, until one breaks; `sockets` is what cleanup would have to destroy. */
  method Fold(proxies: seq<Url>, target: Url, opts: Options, answers: seq<Answer>)
      returns (r: Result, log: seq<Dial>, made: seq<Socket>, sockets: seq<Socket>)
    requires proxies != [] && |answers| >= |proxies|
    ensures DialsAsMeant(proxies, target, opts, log, made) && RoutesAsMeant(proxies, target, answers, made)
    ensures forall i :: 0 <= i < |made| ==> fresh(made[i]) && !made[i].destroyed
    ensures r.Connected? ==> |log| == |made| == |proxies| && r.socket == made[|proxies| - 1]
    ensures r.Failed? ==> BrokeAt(proxies, answers, log, |made|) && sockets == made
    ensures r.Failed? ==> r.error == ErrorAt(proxies, answers, |made|)
  {
    log, made, sockets := [], [], [];
    var socket: Option<Socket> := None;  // what the chain of promises resolved with so far
    for i := 0 to |proxies|
      invariant |log| == |made| == i
      invariant socket == if i == 0 then None else Some(made[i - 1])
      invariant sockets + (if socket.None? then [] else [socket.value]) == made
      invariant DialsAsMeant(proxies, target, opts, log, made) && RoutesAsMeant(proxies, target, answers, made)
      invariant forall j :: 0 <= j < i ==> fresh(made[j]) && !made[j].destroyed
    {
      if socket.Some? {
        sockets := sockets + [socket.value];
      }
      var dialled;
      r, dialled := MakeHop(proxies, target, opts, answers[i], i, socket);
      if dialled.Some? {
        DialAdded(proxies, target, opts, log, made, dialled.value);
        log := log + [dialled.value];
      }
      if r.Failed? {
        return;
      }
      RouteGrows(proxies, target, opts, answers, made, dialled.value, r.socket);
      MoreMade(proxies, target, opts, log, made, r.socket);
      made := made + [r.socket];
      socket := Some(r.socket);
    }
    r := Connected(socket.value);
  }

  /**
   * Composition and cleanup. Either every hop was made, and the socket returned runs through the
   * proxies in order to the target with nothing destroyed; or the first broken hop ended it: no later
   * hop was dialled, exactly the sockets of the hops before it were opened and are destroyed, and the
   * chain rejects with that hop's own reason.
   * `log` lists the dials, `made` the sockets they gave.
   */
  method ChainProxies(proxies: seq<Url>, target: Url, opts: Options, answers: seq<Answer>)
      returns (r: Result, log: seq<Dial>, made: seq<Socket>)
    requires proxies != [] && |answers| >= |proxies|
    ensures DialsAsMeant(proxies, target, opts, log, made) && RoutesAsMeant(proxies, target, answers, made)
    ensures r.Connected? ==>
              && |log| == |made| == |proxies| && r.socket == made[|proxies| - 1]
              && r.socket.route == Route(proxies, target)
              && (forall i :: 0 <= i < |made| ==> !made[i].destroyed)
    ensures r.Failed? ==>
              && BrokeAt(proxies, answers, log, |made|) && r.error == ErrorAt(proxies, answers, |made|)
              && (forall i :: 0 <= i < |made| ==> made[i].destroyed)
  {
    var sockets;
    r, log, made, sockets := Fold(proxies, target, opts, answers);
    if r.Failed? {
      DestroyAll(sockets);
    } else {
      assert proxies[..|proxies|] == proxies;
    }
  }

  lemma DialAdded(proxies: seq<Url>, target: Url, opts: Options, log: seq<Dial>, made: seq<Socket>, dial: Dial)
    requires DialsAsMeant(proxies, target, opts, log, made) && |log| == |made| < |proxies|
    requires DialAsMeant(proxies, target, opts, dial, made, |log|)
    ensures DialsAsMeant(proxies, target, opts, log + [dial], made)
  {
    assert forall i :: 0 <= i < |log| ==> (log + [dial])[i] == log[i];
  }

  lemma MoreMade(proxies: seq<Url>, target: Url, opts: Options, log: seq<Dial>, made: seq<Socket>, next: Socket)
    requires DialsAsMeant(proxies, target, opts, log, made)
    ensures DialsAsMeant(proxies, target, opts, log, made + [next])
  {
    forall i | 0 <= i < |log|
      ensures DialAsMeant(proxies, target, opts, log[i], made + [next], i)
    {
      assert DialAsMeant(proxies, target, opts, log[i], made, i);
      assert i > 0 ==> (made + [next])[i - 1] == made[i - 1];
    }
  }

  /** An empty chain is a direct connection, with all the caller's options. */
  method Chain(proxies: seq<Url>, target: Url, opts: Options, answers: seq<Answer>)
      returns (r: Result, log: seq<Dial>, made: seq<Socket>)
    requires |answers| >= |proxies| && answers != []
    ensures proxies == [] ==>
              && log == [Dial(Reverse, target, target, HopOptions(None, opts.lookup, opts.family))]
              && (answers[0].Connects? <==> r.Connected?)
              && (r.Failed? ==> r.error == answers[0].reason)
    ensures r.Connected? ==> !r.socket.destroyed && r.socket.route == Route(proxies, target)
    ensures proxies != [] ==> DialsAsMeant(proxies, target, opts, log, made)
    ensures proxies != [] && r.Failed? ==>
              && BrokeAt(proxies, answers, log, |made|) && r.error == ErrorAt(proxies, answers, |made|)
              && (forall i :: 0 <= i < |made| ==> made[i].destroyed)
  {
    if |proxies| == 0 {
      var dial := Dial(Reverse, target, target, HopOptions(None, opts.lookup, opts.family));
      r := Call(dial, answers[0]);
      log, made := [dial], [];
      assert proxies == [];
    } else {
      r, log, made := ChainProxies(proxies, target, opts, answers);
    }
  }
}
