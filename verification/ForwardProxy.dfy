/**
 * HTTP CONNECT on both sides: the Proxy-Authorization header the forward client sends
 * (src/proxy/client/forward/index.js), and how the forward server reads it and binds
 * (src/proxy/server/forward/index.js; section 2 of RFC 7617).
 */
module ForwardProxy {
  import opened Bytes
  import opened NumberText
  import opened Authentication
  import Base64
  import T = Tunnel

  const COLON: byte := 58

  // ---------------------------------------------------------------- the client

  /** `Basic ${base64(username:password)}`, or no header without a username. */
  function Authorization(c: Credentials): Option<string> {
    if c.username == [] then None
    else Some("Basic " + Base64.Encode(c.username + [COLON] + c.password))
  }

  /** The request's headers, filled in step by step. */
  method RequestHeaders(host: string, c: Credentials) returns (headers: map<string, string>)
    ensures headers.Keys == {"host", "connection", "keep-alive"}
                            + (if c.username == [] then {} else {"Proxy-Authorization"})
    ensures headers["host"] == host
    ensures headers["connection"] == "keep-alive" && headers["keep-alive"] == "timeout=3600"
    ensures c.username != [] ==>
              && Authorization(c) == Some(headers["Proxy-Authorization"])
              && headers["Proxy-Authorization"] == "Basic " + Base64.Standard(c.username + [58] + c.password)
  {
    Base64.EncodeIsStandard(c.username + [COLON] + c.password);
    headers := map["host" := host, "connection" := "keep-alive", "keep-alive" := "timeout=3600"];
    if c.username != [] {
      headers := headers["Proxy-Authorization" := "Basic " + Base64.Encode(c.username + [COLON] + c.password)];
    }
  }

  // ---------------------------------------------------------------- the server

  /** s.indexOf(x), or the length when x does not occur. */
  function IndexOf<A(==)>(s: seq<A>, x: A): (i: nat)
    ensures i <= |s| && x !in s[..i] && (i < |s| ==> s[i] == x)
  {
    if s == [] || s[0] == x then 0
    else
      var i := IndexOf(s[1..], x) + 1;
      assert s[..i] == [s[0]] + s[1..][..i - 1];
      i
  }

  /** s.split(separator) */
  function Split(s: string, separator: char): (tokens: seq<string>)
    ensures tokens != []
    decreases |s|
  {
    var i := IndexOf(s, separator);
    if i == |s| then [s] else [s[..i]] + Split(s[i + 1..], separator)
  }

  function Rejoined(tokens: seq<string>): string {
    if tokens == [] then "" else Join(tokens, ' ')
  }

  /** getAuth() on the Proxy-Authorization header of the request, absent or present. */
  function GetAuth(header: Option<string>): Option<Credentials> {
    if header.None? || header.value == "" then None
    else
      var tokens := Split(header.value, ' ');
      if tokens[0] != "Basic" then None
      else
        var credentials := Base64.Decode(Rejoined(tokens[1..]));
        var colonIndex := IndexOf(credentials, COLON);
        if colonIndex == |credentials| then None
        else Some(Credentials(credentials[..colonIndex], credentials[colonIndex + 1..]))
  }

  lemma IndexUnique<A>(s: seq<A>, x: A, i: nat)
    requires i < |s| && s[i] == x && x !in s[..i]
    ensures IndexOf(s, x) == i
  {
  }

  lemma CutAt<A>(s: seq<A>, i: nat)
    requires i < |s|
    ensures s == s[..i] + [s[i]] + s[i + 1..]
  {
  }

  lemma SplitStep(s: string, separator: char, i: nat)
    requires i < |s| && i == IndexOf(s, separator)
    ensures Join(Split(s, separator), separator) == s[..i] + [separator] + Join(Split(s[i + 1..], separator), separator)
  {
    var tokens, more := Split(s, separator), Split(s[i + 1..], separator);
    assert tokens == [s[..i]] + more && tokens[1..] == more;
  }

  lemma {:induction false} SplitRejoins(s: string, separator: char)
    ensures Join(Split(s, separator), separator) == s
    decreases |s|
  {
    var i := IndexOf(s, separator);
    if i < |s| {
      SplitRejoins(s[i + 1..], separator);
      SplitStep(s, separator, i);
      CutAt(s, i);
    }
  }

  lemma BasicSplits(rest: string)
    ensures Split("Basic " + rest, ' ') == ["Basic"] + Split(rest, ' ')
  {
    var header := "Basic " + rest;
    assert header[..5] == "Basic" && header[6..] == rest;
    IndexUnique(header, ' ', 5);
  }

  lemma BasicHeader(header: string)
    requires Split(header, ' ')[0] == "Basic"
    ensures header == "Basic" || header == "Basic " + Rejoined(Split(header, ' ')[1..])
  {
    var tokens := Split(header, ' ');
    SplitRejoins(header, ' ');
    if |tokens| > 1 {
      assert header == tokens[0] + [' '] + Join(tokens[1..], ' ');
      assert "Basic" + [' '] == "Basic ";
    }
  }

  /** The header carries these credentials: the scheme, and text that decodes to name, colon, password. */
  ghost predicate Authorizes(header: string, rest: string, c: Credentials) {
    && header == "Basic " + rest && 58 !in c.username
    && Base64.Decode(rest) == c.username + [58] + c.password
  }

  lemma AuthorizedIsRead(header: string, rest: string, c: Credentials)
    requires Authorizes(header, rest, c)
    ensures GetAuth(Some(header)) == Some(c)
  {
    var text, u := Base64.Decode(rest), |c.username|;
    BasicSplits(rest);
    SplitRejoins(rest, ' ');
    assert Split(header, ' ')[1..] == Split(rest, ' ');
    IndexUnique(text, COLON, u);
    assert text[..u] == c.username && text[u + 1..] == c.password;
  }

  lemma BareSchemeIsNone()
    ensures GetAuth(Some("Basic")) == None
  {
    assert IndexOf("Basic", ' ') == 5;
    assert Split("Basic", ' ')[1..] == [];
  }

  lemma ReadIsAuthorized(header: string, c: Credentials)
    requires GetAuth(Some(header)) == Some(c)
    ensures Authorizes(header, Rejoined(Split(header, ' ')[1..]), c)
  {
    var rest := Rejoined(Split(header, ' ')[1..]);
    var text := Base64.Decode(rest);
    BareSchemeIsNone();
    BasicHeader(header);
    CutAt(text, |c.username|);
  }

  /** Whatever the header: credentials come out if and only if it is of the Basic scheme and carries them. */
  lemma GetAuthCharacterised(header: Option<string>, c: Credentials)
    ensures GetAuth(header) == Some(c) <==>
            header.Some? && exists rest: string :: Authorizes(header.value, rest, c)
  {
    if GetAuth(header) == Some(c) {
      ReadIsAuthorized(header.value, c);
    }
    if header.Some? {
      forall rest: string | Authorizes(header.value, rest, c)
        ensures GetAuth(header) == Some(c)
      {
        AuthorizedIsRead(header.value, rest, c);
      }
    }
  }

  lemma HeaderSplits(value: string)
    requires ' ' !in value
    ensures Split("Basic " + value, ' ') == ["Basic", value]
  {
    var header := "Basic " + value;
    assert header[..5] == "Basic" && header[6..] == value;
    IndexUnique(header, ' ', 5);
    assert IndexOf(value, ' ') == |value|;
  }

  /** The server decodes what the client encoded; the first colon is what it splits at. */
  lemma GetAuthSplitsAtFirstColon(c: Credentials)
    requires c.username != []
    ensures var text := c.username + [COLON] + c.password; var i := IndexOf(text, COLON);
            i < |text| && GetAuth(Authorization(c)) == Some(Credentials(text[..i], text[i + 1..]))
  {
    var text := c.username + [COLON] + c.password;
    var value := Base64.Encode(text);
    Base64.EncodeHasNoSpace(text);
    HeaderSplits(value);
    assert ["Basic", value][1..] == [value];
    Base64.DecodeInvertsEncode(text);
    assert text[|c.username|] == COLON;
  }

  /**
   * Basic credentials round trip, exactly: what the server reads is what the client was given if and
   * only if the username is non-empty and has no colon. The password may hold anything.
   */
  lemma CredentialsRoundTrip(c: Credentials)
    ensures GetAuth(Authorization(c)) == Some(c) <==> c.username != [] && COLON !in c.username
  {
    if c.username != [] {
      var text, u := c.username + [COLON] + c.password, |c.username|;
      GetAuthSplitsAtFirstColon(c);
      assert text[..u] == c.username && text[u + 1..] == c.password;
      if COLON !in c.username {
        IndexUnique(text, COLON, u);
      }
    }
  }

  // ---------------------------------------------------------------- bind

  /** The response as bytes; its characters are all ASCII. */
  function Ascii(s: string): (r: bytes)
    ensures |r| == |s| && forall i :: 0 <= i < |s| && s[i] as int < 128 ==> r[i] == s[i] as int
  {
    seq(|s|, i requires 0 <= i < |s| => s[i] as int % 256)
  }

  /** The headers of every response. */
  const HEADERS: string := "Connection: Close\r\nProxy-agent: Proxinator\r\n\r\n"

  /** Strip CR and LF from the status message, so that it cannot split the response. */
  function Safe(message: string): (r: string)
    ensures |r| == |message| && '\r' !in r && '\n' !in r
    ensures forall i :: 0 <= i < |r| && r[i] != message[i] ==> r[i] == ' '
    ensures '\r' !in message && '\n' !in message ==> r == message
  {
    seq(|message|, i requires 0 <= i < |message| =>
      if message[i] == '\r' || message[i] == '\n' then ' ' else message[i])
  }

  /** writeResponse(): nothing to a socket that is ended or destroyed. */
  method WriteResponse(clientSocket: T.Socket, statusCode: string, statusMessage: string, now: nat)
    modifies clientSocket
    ensures clientSocket.View() ==
            if old(clientSocket.finished || clientSocket.destroyed) then old(clientSocket.View())
            else T.Wrote(old(clientSocket.View()),
                         Ascii("HTTP/1.1 " + statusCode + " " + Safe(statusMessage) + "\r\n"
                               + "Connection: Close\r\nProxy-agent: Proxinator\r\n\r\n"), now)
  {
    if clientSocket.destroyed || clientSocket.finished {
      return;
    }
    var head := "HTTP/1.1 " + statusCode + " " + Safe(statusMessage) + "\r\n";
    clientSocket.Write(Ascii(head + HEADERS), now);
  }

  /**
   * bind(socket, { idleTimeout }): the bytes that came with the CONNECT go to the target first, and
   * the 200 response to the client first, before anything the tunnel carries.
   */
  method Bind(clientSocket: T.Socket, head: bytes, socket: T.Socket, idleTimeout: nat, now: nat)
      returns (tunnel: T.Tunnel)
    requires clientSocket != socket
    modifies clientSocket, socket
    ensures tunnel.Valid() && tunnel.clientSocket == clientSocket && tunnel.socket == socket
    ensures var response := Ascii("HTTP/1.1 " + "200" + " " + "Connection Established" + "\r\n"
                                  + "Connection: Close\r\nProxy-agent: Proxinator\r\n\r\n");
            tunnel.View() == T.Start(
              if old(clientSocket.finished || clientSocket.destroyed) then old(clientSocket.View())
              else T.Wrote(old(clientSocket.View()), response, now),
              T.Flushed(old(socket.View()), head, now), idleTimeout, now)
  {
    if |head| > 0 {
      socket.Write(head, now);
    }
    assert '\r' !in "Connection Established" && '\n' !in "Connection Established";
    WriteResponse(clientSocket, "200", "Connection Established", now);
    tunnel := new T.Tunnel(clientSocket, socket, idleTimeout, now);
  }
}
