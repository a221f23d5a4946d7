/**
 The Kotlin relay as a SOCKS5 server: `Out` is all it has written once it has read some bytes;
 the methods at the end are the source's. Both client handshakes get through to it.
 */
module LocalSocksRelay {
  import opened Bytes
  import opened Socks5Addr
  import opened RelayUdp
  import Handshake
  import TlsClientHello

  const SOCKS_VERSION: byte := 5
  const USERNAME_PASSWORD_AUTH: byte := 2
  const COMMAND_CONNECT: byte := 1
  const COMMAND_UDP_ASSOCIATE: byte := 3

  datatype Request = Request(command: byte, address: Inet, port: nat)

  datatype Reply = Reply(code: byte, bound: Inet, port: nat)

  /** The relay's login, its name lookup, and what becomes of a CONNECT or UDP ASSOCIATE: an
      answer, or the session is closed without one. */
  datatype Relay = Relay(username: seq<byte>, password: seq<byte>, lookup: Lookup, serve: Request -> Option<Reply>)

  /** Where a conversation stands: more input is awaited, it is closed, or it goes on. */
  datatype End = Waiting | Closed | Ready(rest: seq<byte>)

  datatype Talk = Talk(out: seq<byte>, end: End)

  // ---------------------------------------------------------------- what the relay says

  function Methods(h: seq<byte>): Talk {
    if h == [] then Talk([], Waiting)
    else if h[0] != SOCKS_VERSION then Talk([], Closed)
    else if |h| < 2 || |h| < 2 + h[1] as int then Talk([], Waiting)
    else if USERNAME_PASSWORD_AUTH !in h[2..2 + h[1] as int] then Talk([SOCKS_VERSION, 0xFF], Closed)
    else Talk([SOCKS_VERSION, USERNAME_PASSWORD_AUTH], Ready(h[2 + h[1] as int..]))
  }

  /** A text preceded by its length. */
  function Counted(h: seq<byte>): Option<seq<byte>> {
    if h == [] || |h| < 1 + h[0] as int then None else Some(h[1..1 + h[0] as int])
  }

  function Login(relay: Relay, h: seq<byte>): Talk {
    if h == [] then Talk([], Waiting)
    else if h[0] != 1 then Talk([], Closed)
    else
      var user := Counted(h[1..]);
      if user.None? then Talk([], Waiting)
      else
        var h' := h[2 + |user.value|..];
        var pass := Counted(h');
        if pass.None? then Talk([], Waiting)
        else if user.value == relay.username && pass.value == relay.password then
          Talk([1, 0], Ready(h'[1 + |pass.value|..]))
        else Talk([1, 1], Closed)
  }

  function Negotiate(relay: Relay, h: seq<byte>): Talk {
    var a := Methods(h);
    if !a.end.Ready? then a
    else
      var b := Login(relay, a.end.rest);
      Talk(a.out + b.out, b.end)
  }

  /** A request read, or why not. */
  datatype Asked = NotYet | Refused | Asks(r: Request, rest: seq<byte>)

  function AskedPort(command: byte, a: Inet, h: seq<byte>): Asked {
    if |h| < 2 then NotYet else Asks(Request.Request(command, a, U16(h, 0)), h[2..])
  }

  /** From behind the address type on. */
  function AskedAddress(lookup: Lookup, command: byte, kind: byte, h: seq<byte>): Asked {
    if kind == IPV4 then (if |h| < 4 then NotYet else AskedPort(command, ByAddress(h[..4]), h[4..]))
    else if kind == IPV6 then (if |h| < 16 then NotYet else AskedPort(command, ByAddress(h[..16]), h[16..]))
    else if kind == NAME then
      var name := Counted(h);
      if name.None? then NotYet
      else
        var host := lookup(TlsClientHello.Ascii(name.value));
        if host.None? then Refused else AskedPort(command, host.value, h[1 + |name.value|..])
    else Refused
  }

  function ReadRequest(lookup: Lookup, h: seq<byte>): Asked {
    if h == [] then NotYet
    else if h[0] != SOCKS_VERSION then Refused
    else if |h| < 4 then NotYet
    else AskedAddress(lookup, h[1], h[3], h[4..])
  }

  function EncodeReply(r: Reply): seq<byte> {
    [SOCKS_VERSION, r.code, 0, if r.bound.Inet6? then IPV6 else IPV4] + r.bound.raw + Port(r.port)
  }

  /** What becomes of a request; a command that is not known is answered with 7. */
  function Answer(relay: Relay, r: Request): seq<byte> {
    if r.command == COMMAND_CONNECT || r.command == COMMAND_UDP_ASSOCIATE then
      var reply := relay.serve(r);
      if reply.Some? then EncodeReply(reply.value) else []
    else EncodeReply(Reply(7, Inet4([0, 0, 0, 0]), 0))
  }

  /** All that has been written, up to the answer to the request, when `h` has been read. */
  function Out(relay: Relay, h: seq<byte>): seq<byte> {
    var a := Negotiate(relay, h);
    if !a.end.Ready? then a.out
    else
      var q := ReadRequest(relay.lookup, a.end.rest);
      a.out + if q.Asks? then Answer(relay, q.r) else []
  }

  /** The relay waits for more input; otherwise it has closed, or it is done reading. */
  predicate Awaits(relay: Relay, h: seq<byte>) {
    var a := Negotiate(relay, h);
    a.end.Waiting? || (a.end.Ready? && ReadRequest(relay.lookup, a.end.rest).NotYet?)
  }

  // ---------------------------------------------------------------- more input

  /** What more input does to a conversation: it goes on from where it stood. */
  predicate Extends(a: Talk, b: Talk, t: seq<byte>) {
    match a.end
    case Waiting => a.out <= b.out
    case Closed => b == a
    case Ready(rest) => b == Talk(a.out, Ready(rest + t))
  }

  lemma CountedMore(h: seq<byte>, t: seq<byte>)
    requires Counted(h).Some?
    ensures Counted(h + t) == Counted(h) && (h + t)[1 + |Counted(h).value|..] == h[1 + |Counted(h).value|..] + t
  {
    assert (h + t)[1..1 + h[0] as int] == h[1..1 + h[0] as int];
  }

  lemma MethodsMore(h: seq<byte>, t: seq<byte>)
    ensures Extends(Methods(h), Methods(h + t), t)
  {
    if |h| >= 2 && |h| >= 2 + h[1] as int {
      assert (h + t)[2..2 + h[1] as int] == h[2..2 + h[1] as int];
      assert (h + t)[2 + h[1] as int..] == h[2 + h[1] as int..] + t;
    }
  }

  lemma LoginMore(relay: Relay, h: seq<byte>, t: seq<byte>)
    ensures Extends(Login(relay, h), Login(relay, h + t), t)
  {
    if h != [] && h[0] == 1 && Counted(h[1..]).Some? {
      var n := |Counted(h[1..]).value|;
      assert (h + t)[1..] == h[1..] + t;
      CountedMore(h[1..], t);
      var h' := h[2 + n..];
      assert (h + t)[2 + n..] == h' + t by {
        assert (h[1..] + t)[1 + n..] == h[1..][1 + n..] + t;
      }
      if Counted(h').Some? {
        CountedMore(h', t);
      }
    }
  }

  lemma NegotiateMore(relay: Relay, h: seq<byte>, t: seq<byte>)
    ensures Extends(Negotiate(relay, h), Negotiate(relay, h + t), t)
  {
    MethodsMore(h, t);
    if Methods(h).end.Ready? {
      LoginMore(relay, Methods(h).end.rest, t);
    }
    hide Methods, Login;
  }

  lemma RequestMore(lookup: Lookup, h: seq<byte>, t: seq<byte>)
    ensures ReadRequest(lookup, h).Asks? ==>
      ReadRequest(lookup, h + t).Asks? && ReadRequest(lookup, h + t).r == ReadRequest(lookup, h).r
    ensures ReadRequest(lookup, h).Refused? ==> ReadRequest(lookup, h + t).Refused?
  {
    if |h| >= 4 && h[0] == SOCKS_VERSION {
      assert (h + t)[4..] == h[4..] + t;
      AddressMore(lookup, h[1], h[3], h[4..], t);
    }
  }

  lemma PortMore(command: byte, a: Inet, h: seq<byte>, t: seq<byte>)
    ensures AskedPort(command, a, h).Asks? ==>
      AskedPort(command, a, h + t).Asks? && AskedPort(command, a, h + t).r == AskedPort(command, a, h).r
    ensures !AskedPort(command, a, h).Refused?
  {
  }

  lemma AddressMore(lookup: Lookup, command: byte, kind: byte, h: seq<byte>, t: seq<byte>)
    ensures var a := AskedAddress(lookup, command, kind, h); var b := AskedAddress(lookup, command, kind, h + t);
      (a.Asks? ==> b.Asks? && b.r == a.r) && (a.Refused? ==> b.Refused?)
  {
    hide AskedPort, ByAddress;
    if kind == IPV4 && |h| >= 4 {
      assert (h + t)[..4] == h[..4] && (h + t)[4..] == h[4..] + t;
      PortMore(command, ByAddress(h[..4]), h[4..], t);
    } else if kind == IPV6 && |h| >= 16 {
      assert (h + t)[..16] == h[..16] && (h + t)[16..] == h[16..] + t;
      PortMore(command, ByAddress(h[..16]), h[16..], t);
    } else if kind == NAME && Counted(h).Some? {
      CountedMore(h, t);
      var host := lookup(TlsClientHello.Ascii(Counted(h).value));
      if host.Some? {
        PortMore(command, host.value, h[1 + |Counted(h).value|..], t);
      }
    }
  }

  lemma OutMore(relay: Relay, h: seq<byte>, t: seq<byte>)
    ensures Out(relay, h) <= Out(relay, h + t)
  {
    hide Negotiate, ReadRequest, Answer;
    NegotiateMore(relay, h, t);
    var a := Negotiate(relay, h);
    if a.end.Ready? {
      RequestMore(relay.lookup, a.end.rest, t);
    }
  }

  /** The relay as a server. */
  ghost predicate Serves(s: Handshake.Server, relay: Relay) {
    forall h :: s(h) == Out(relay, h)
  }

  lemma RelayIsCausal(s: Handshake.Server, relay: Relay)
    requires Serves(s, relay)
    ensures Handshake.Causal(s)
  {
    forall h: seq<byte>, t: seq<byte> ensures s(h) <= s(h + t) {
      OutMore(relay, h, t);
    }
  }

  // ---------------------------------------------------------------- the two clients

  /** A client with a login that its length bytes can tell, and a request for an address. */
  predicate Asking(c: Handshake.Client, login: Handshake.Credentials, command: byte, a: Addr) {
    && c.auth == Some(login) && |login.user| < 256 && |login.pass| < 256
    && WellFormed(a) && c.request == Some([SOCKS_VERSION, command, 0] + Encode(a))
  }

  predicate Knows(relay: Relay, login: Handshake.Credentials) {
    login.user == relay.username && login.pass == relay.password
  }

  lemma MethodsAnswered(c: Handshake.Client, rest: seq<byte>)
    ensures Methods(Handshake.Methods(c) + rest) ==
      if c.auth.Some? then Talk([SOCKS_VERSION, USERNAME_PASSWORD_AUTH], Ready(rest))
      else Talk([SOCKS_VERSION, 0xFF], Closed)
  {
    var h := Handshake.Methods(c) + rest;
    assert h[2..2 + h[1] as int] == [Handshake.Offered(c)] && h[3..] == rest;
  }

  lemma CountedBack(text: seq<byte>, rest: seq<byte>)
    requires |text| < 256
    ensures Counted(Handshake.Counted(text) + rest) == Some(text)
    ensures |Handshake.Counted(text)| == 1 + |text|
    ensures (Handshake.Counted(text) + rest)[1 + |text|..] == rest
  {
    assert text[..|text|] == text;
  }

  lemma LoginAnswered(relay: Relay, c: Handshake.Client, login: Handshake.Credentials, rest: seq<byte>)
    requires c.auth == Some(login) && |login.user| < 256 && |login.pass| < 256
    ensures Login(relay, Handshake.Login(c) + rest) ==
      if Knows(relay, login) then Talk([1, 0], Ready(rest)) else Talk([1, 1], Closed)
  {
    hide Counted, Handshake.Counted;
    LoginParts(c, login, rest);
    CountedBack(login.pass, rest);
    hide Handshake.Login;
  }

  lemma LoginParts(c: Handshake.Client, login: Handshake.Credentials, rest: seq<byte>)
    requires c.auth == Some(login) && |login.user| < 256 && |login.pass| < 256
    ensures var h := Handshake.Login(c) + rest; var tail := Handshake.Counted(login.pass) + rest;
      && h != [] && h[0] == 1 && Counted(h[1..]) == Some(login.user)
      && 2 + |login.user| <= |h| && h[2 + |login.user|..] == tail
  {
    hide Counted, Handshake.Counted;
    var h := Handshake.Login(c) + rest;
    var tail := Handshake.Counted(login.pass) + rest;
    CountedBack(login.user, tail);
    assert h == [1] + (Handshake.Counted(login.user) + tail);
    assert h[1..] == Handshake.Counted(login.user) + tail;
    assert h[2 + |login.user|..] == h[1..][1 + |login.user|..];
  }

  /** What a request for an address asks the relay for. */
  function Wanted(lookup: Lookup, command: byte, a: Addr): Option<Request>
    requires WellFormed(a)
  {
    match a
    case V4(ip, port) => Some(Request.Request(command, ByAddress(ip), port))
    case V6(ip, port) => Some(Request.Request(command, ByAddress(ip), port))
    case Domain(name, port) =>
      var host := lookup(TlsClientHello.Ascii(name));
      if host.None? then None else Some(Request.Request(command, host.value, port))
  }

  lemma PortAsked(command: byte, a: Inet, port: nat)
    requires port < 0x1_0000
    ensures AskedPort(command, a, Port(port)) == Asks(Request.Request(command, a, port), [])
  {
    PortBack(port, []);
    assert Port(port) + [] == Port(port);
  }

  lemma NumericIsRead(lookup: Lookup, command: byte, a: Addr)
    requires WellFormed(a) && !a.Domain?
    ensures AskedAddress(lookup, command, Encode(a)[0], Encode(a)[1..]) ==
      Asks(Request.Request(command, ByAddress(a.ip), a.port), [])
  {
    hide AskedPort, Port, ByAddress, Counted;
    var h := Encode(a)[1..];
    assert h == a.ip + Port(a.port) && h[..|a.ip|] == a.ip && h[|a.ip|..] == Port(a.port);
    PortAsked(command, ByAddress(a.ip), a.port);
  }

  lemma NameIsRead(lookup: Lookup, command: byte, a: Addr)
    requires WellFormed(a) && a.Domain?
    ensures AskedAddress(lookup, command, Encode(a)[0], Encode(a)[1..]) ==
      var host := lookup(TlsClientHello.Ascii(a.name));
      if host.None? then Refused else Asks(Request.Request(command, host.value, a.port), [])
  {
    hide AskedPort, Port, ByAddress, TlsClientHello.Ascii;
    var h := Encode(a)[1..];
    assert h == Handshake.Counted(a.name) + Port(a.port);
    CountedBack(a.name, Port(a.port));
    var host := lookup(TlsClientHello.Ascii(a.name));
    if host.Some? {
      PortAsked(command, host.value, a.port);
    }
  }

  /** The relay reads exactly the command, address and port that were sent. */
  lemma RequestIsRead(lookup: Lookup, command: byte, a: Addr)
    requires WellFormed(a)
    ensures ReadRequest(lookup, [SOCKS_VERSION, command, 0] + Encode(a)) ==
      if Wanted(lookup, command, a).None? then Refused else Asks(Wanted(lookup, command, a).value, [])
  {
    EncodedLen(a, [], 0);
    if a.Domain? {
      NameIsRead(lookup, command, a);
    } else {
      NumericIsRead(lookup, command, a);
    }
    hide AskedAddress, Encode;
    var h := [SOCKS_VERSION, command, 0] + Encode(a);
    assert h[3] == Encode(a)[0] && h[4..] == Encode(a)[1..];
  }

  const CHOSEN: seq<byte> := [SOCKS_VERSION, USERNAME_PASSWORD_AUTH]

  function Verdict(relay: Relay, login: Handshake.Credentials): seq<byte> {
    [1, if Knows(relay, login) then 0 else 1]
  }

  /** What the relay writes about a request that it has read. */
  function Final(relay: Relay, login: Handshake.Credentials, w: Option<Request>): seq<byte> {
    if Knows(relay, login) && w.Some? then Answer(relay, w.value) else []
  }

  lemma OutIs(relay: Relay, h: seq<byte>, rest: seq<byte>, b: Talk)
    requires Methods(h) == Talk(CHOSEN, Ready(rest)) && Login(relay, rest) == b
    ensures Out(relay, h) == CHOSEN + b.out +
      if b.end.Ready? && ReadRequest(relay.lookup, b.end.rest).Asks? then
        Answer(relay, ReadRequest(relay.lookup, b.end.rest).r)
      else []
    ensures Awaits(relay, h) <==>
      b.end.Waiting? || (b.end.Ready? && ReadRequest(relay.lookup, b.end.rest).NotYet?)
  {
  }

  lemma AfterMethods(relay: Relay, c: Handshake.Client)
    requires c.auth.Some?
    ensures Out(relay, Handshake.Methods(c)) == CHOSEN && Awaits(relay, Handshake.Methods(c))
  {
    hide Awaits, Methods, Login, ReadRequest, Answer, Handshake.Methods, Out;
    MethodsAnswered(c, []);
    assert Handshake.Methods(c) + [] == Handshake.Methods(c);
    LoginEmpty(relay);
    OutIs(relay, Handshake.Methods(c), [], Talk([], Waiting));
    assert CHOSEN + [] + [] == CHOSEN;
  }

  lemma AfterLogin(relay: Relay, c: Handshake.Client, login: Handshake.Credentials)
    requires c.auth == Some(login) && |login.user| < 256 && |login.pass| < 256
    ensures Out(relay, Handshake.Methods(c) + Handshake.Login(c)) == CHOSEN + Verdict(relay, login)
    ensures Awaits(relay, Handshake.Methods(c) + Handshake.Login(c)) <==> Knows(relay, login)
  {
    hide Awaits, Methods, Login, ReadRequest, Answer, Handshake.Methods, Handshake.Login, Out, Knows;
    MethodsAnswered(c, Handshake.Login(c));
    LoginAnswered(relay, c, login, []);
    assert Handshake.Login(c) + [] == Handshake.Login(c);
    RequestEmpty(relay.lookup);
    OutIs(relay, Handshake.Methods(c) + Handshake.Login(c), Handshake.Login(c), Login(relay, Handshake.Login(c)));
    assert CHOSEN + Verdict(relay, login) + [] == CHOSEN + Verdict(relay, login);
  }

  lemma AfterRequest(relay: Relay, c: Handshake.Client, login: Handshake.Credentials, r: seq<byte>, w: Option<Request>)
    requires c.auth == Some(login) && |login.user| < 256 && |login.pass| < 256
    requires ReadRequest(relay.lookup, r) == if w.None? then Refused else Asks(w.value, [])
    ensures Out(relay, Handshake.Methods(c) + Handshake.Login(c) + r) ==
      CHOSEN + Verdict(relay, login) + Final(relay, login, w)
    ensures !Awaits(relay, Handshake.Methods(c) + Handshake.Login(c) + r)
  {
    hide Awaits, Methods, Login, ReadRequest, Answer, Handshake.Methods, Handshake.Login, Out, Knows;
    var m, l := Handshake.Methods(c), Handshake.Login(c);
    assert m + l + r == m + (l + r);
    MethodsAnswered(c, l + r);
    LoginAnswered(relay, c, login, r);
    OutIs(relay, m + l + r, l + r, Login(relay, l + r));
  }

  /** What the relay has written at each point where a client may wait: it has always answered.
      And it waits itself just where the client still has something to send: a login, or a request
      once the login was right. So the two never wait for each other. */
  lemma RelayAnswers(relay: Relay, c: Handshake.Client, login: Handshake.Credentials, command: byte, a: Addr)
    requires Asking(c, login, command, a)
    ensures var m := Handshake.Methods(c); var l := Handshake.Login(c);
      && Out(relay, m) == CHOSEN
      && Out(relay, m + l) == CHOSEN + Verdict(relay, login)
      && Out(relay, m + l + c.request.value) ==
           CHOSEN + Verdict(relay, login) + Final(relay, login, Wanted(relay.lookup, command, a))
    ensures var m := Handshake.Methods(c); var l := Handshake.Login(c);
      && Awaits(relay, m)
      && (Awaits(relay, m + l) <==> Knows(relay, login))
      && !Awaits(relay, m + l + c.request.value)
  {
    hide Awaits, Knows, Out, ReadRequest, Handshake.Methods, Handshake.Login, Wanted, Encode, Verdict, Final;
    AfterMethods(relay, c);
    AfterLogin(relay, c, login);
    RequestIsRead(relay.lookup, command, a);
    AfterRequest(relay, c, login, c.request.value, Wanted(relay.lookup, command, a));
  }

  lemma LoginEmpty(relay: Relay)
    ensures Login(relay, []) == Talk([], Waiting)
  {
  }

  lemma RequestEmpty(lookup: Lookup)
    ensures ReadRequest(lookup, []) == NotYet
  {
  }

  /** A client that offers no login is turned away at once. */
  lemma AnonymousIsDenied(relay: Relay, c: Handshake.Client, more: seq<byte>)
    requires c.auth == None
    ensures Out(relay, Handshake.Methods(c) + more) == [SOCKS_VERSION, Handshake.DENY]
    ensures !Awaits(relay, Handshake.Methods(c) + more)
  {
    MethodsAnswered(c, more);
  }

  /** When the relay's answer is a success with an address that the client takes. */
  predicate Success(relay: Relay, c: Handshake.Client, w: Option<Request>) {
    && w.Some? && (w.value.command == COMMAND_CONNECT || w.value.command == COMMAND_UDP_ASSOCIATE)
    && var reply := relay.serve(w.value);
    && reply.Some? && reply.value.code == 0 && c.takes(Encode(AddrOf(reply.value.bound, reply.value.port)))
  }

  lemma ReplyIsGranted(relay: Relay, c: Handshake.Client, r: Reply)
    requires |r.bound.raw| == if r.bound.Inet4? then 4 else 16
    ensures Handshake.Granted(c, CHOSEN + [1, 0] + EncodeReply(r), 4) <==>
      r.code == 0 && c.takes(Encode(AddrOf(r.bound, r.port)))
  {
    var out := CHOSEN + [1, 0] + EncodeReply(r);
    var addr := Encode(AddrOf(r.bound, r.port));
    assert out == [SOCKS_VERSION, USERNAME_PASSWORD_AUTH, 1, 0, SOCKS_VERSION, r.code, 0] + addr;
    assert |addr| == 1 + Handshake.BoundLen(addr[0]);
    assert out[7..7 + |addr|] == addr;
  }

  /** Against the relay both handshakes end alike: they succeed just if the login is the relay's
      and it grants the request. */
  lemma BothSucceedIff(s: Handshake.Server, relay: Relay, c: Handshake.Client, login: Handshake.Credentials,
      command: byte, a: Addr)
    requires Serves(s, relay) && Asking(c, login, command, a)
    requires forall r :: relay.serve(r).Some? ==> Proper(relay.serve(r).value.bound)
    ensures Handshake.Standard(s, c).ok == Handshake.Pipelined(s, c).ok
    ensures Handshake.Standard(s, c).ok <==> Knows(relay, login) && Success(relay, c, Wanted(relay.lookup, command, a))
  {
    hide Out, Handshake.Methods, Handshake.Login, Handshake.Granted, Wanted, Answer, Encode, WellFormed, Knows, Success,
      Handshake.Causal;
    RelayIsCausal(s, relay);
    RelayAnswers(relay, c, login, command, a);
    var m, l, r := Handshake.Methods(c), Handshake.Login(c), c.request.value;
    assert s(m) == Out(relay, m) && s(m + l) == Out(relay, m + l) && s(m + l + r) == Out(relay, m + l + r);
    var w := Wanted(relay.lookup, command, a);
    if !Knows(relay, login) {
      TurnedAway(relay, c, login, w);
    }
    AnswerIsGranted(relay, c, w);
    Handshake.SameEnding(s, c);
  }

  /** After a wrong login there is nothing that could grant the request. */
  lemma TurnedAway(relay: Relay, c: Handshake.Client, login: Handshake.Credentials, w: Option<Request>)
    requires !Knows(relay, login)
    ensures !Handshake.LoggedIn(CHOSEN + Verdict(relay, login) + Final(relay, login, w))
  {
  }

  lemma AnswerIsGranted(relay: Relay, c: Handshake.Client, w: Option<Request>)
    requires forall r :: relay.serve(r).Some? ==> Proper(relay.serve(r).value.bound)
    ensures var out := CHOSEN + [1, 0] + if w.Some? then Answer(relay, w.value) else [];
      Handshake.Granted(c, out, 4) <==> Success(relay, c, w)
  {
    hide EncodeReply, Encode;
    if w.Some? {
      if w.value.command == COMMAND_CONNECT || w.value.command == COMMAND_UDP_ASSOCIATE {
        var reply := relay.serve(w.value);
        if reply.Some? {
          ReplyIsGranted(relay, c, reply.value);
        }
      } else {
        ReplyIsGranted(relay, c, Reply(7, Inet4([0, 0, 0, 0]), 0));
      }
    }
  }

  // ---------------------------------------------------------------- the relay in place

  /** What still comes from a client; a read that finds nothing throws. */
  class InputStream {
    var rest: seq<byte>
    // what the reads of chunks have given so far
    ghost var chunks: seq<seq<byte>>

    constructor (rest: seq<byte>)
      ensures this.rest == rest && chunks == []
    {
      this.rest, chunks := rest, [];
    }

    method ReadByte() returns (b: Option<byte>)
      modifies `rest
      ensures old(rest) == [] ==> b == None && rest == []
      ensures old(rest) != [] ==> b == Some(old(rest)[0]) && rest == old(rest)[1..]
    {
      if rest == [] {
        return None;
      }
      b, rest := Some(rest[0]), rest[1..];
    }

    /** `read(buffer, offset, length)`: what has arrived, up to `n` bytes; nothing at the end or
        when the time is over. */
    method Read(n: nat) returns (got: seq<byte>)
      requires n > 0
      modifies this
      ensures old(rest) == got + rest && |got| <= n && chunks == old(chunks) + [got]
    {
      var k :| 0 <= k <= n && k <= |rest|;
      got, rest := rest[..k], rest[k..];
      chunks := chunks + [got];
    }

    method ReadExactly(count: nat) returns (b: Option<seq<byte>>)
      modifies `rest
      ensures |old(rest)| < count ==> b == None
      ensures |old(rest)| >= count ==> b == Some(old(rest)[..count]) && rest == old(rest)[count..]
    {
      var result: seq<byte> := [];
      while |result| < count
        invariant |result| <= count && old(rest) == result + rest
      {
        var one := ReadByte();
        if one.None? {
          return None;
        }
        result := result + [one.value];
      }
      b := Some(result);
    }

    /** A text preceded by its length. */
    method ReadCounted() returns (text: Option<seq<byte>>)
      modifies `rest
      ensures text == Counted(old(rest))
      ensures text.Some? ==> rest == old(rest)[1 + |text.value|..]
    {
      var n := ReadByte();
      if n.None? {
        return None;
      }
      ghost var h, k := old(rest), n.value as int;
      assert 1 + k <= |h| ==> h[1..][..k] == h[1..1 + k] && h[1..][k..] == h[1 + k..];
      text := ReadExactly(n.value);
    }
  }

  /** A session with one client: what it has been sent so far. */
  class Session {
    const relay: Relay
    const input: InputStream
    var output: seq<byte>

    constructor (relay: Relay, input: InputStream)
      ensures this.relay == relay && this.input == input && output == []
    {
      this.relay, this.input, output := relay, input, [];
    }

    method Write(data: seq<byte>)
      modifies `output
      ensures output == old(output) + data
    {
      output := output + data;
    }

    method NegotiateMethod() returns (ok: bool)
      modifies this, input
      ensures var t := Methods(old(input.rest));
        output == old(output) + t.out && ok == t.end.Ready? && (ok ==> input.rest == t.end.rest)
    {
      assert output + [] == output;
      var version := input.ReadByte();
      if version != Some(SOCKS_VERSION) {
        return false;
      }
      var methodCount := input.ReadByte();
      if methodCount.None? {
        return false;
      }
      var methods := input.ReadExactly(methodCount.value);
      if methods.None? {
        return false;
      }
      ghost var h, n := old(input.rest), methodCount.value as int;
      assert h[1..][1..][..n] == h[2..2 + n] && h[1..][1..][n..] == h[2 + n..];
      if USERNAME_PASSWORD_AUTH !in methods.value {
        Write([SOCKS_VERSION, 0xFF]);
        return false;
      }
      Write([SOCKS_VERSION, USERNAME_PASSWORD_AUTH]);
      ok := true;
    }

    method CheckLogin() returns (ok: bool)
      modifies this, input
      ensures var t := Login(relay, old(input.rest));
        output == old(output) + t.out && ok == t.end.Ready? && (ok ==> input.rest == t.end.rest)
    {
      assert output + [] == output;
      var version := input.ReadByte();
      if version != Some(1) {
        return false;
      }
      var user := input.ReadCounted();
      if user.None? {
        return false;
      }
      assert input.rest == old(input.rest)[2 + |user.value|..];
      var pass := input.ReadCounted();
      if pass.None? {
        return false;
      }
      ok := user.value == relay.username && pass.value == relay.password;
      Write([1, if ok then 0 else 1]);
    }

    /** `negotiate`; false for an exception. */
    method NegotiateSession() returns (ok: bool)
      modifies this, input
      ensures var t := Negotiate(relay, old(input.rest));
        output == old(output) + t.out && ok == t.end.Ready? && (ok ==> input.rest == t.end.rest)
    {
      hide Methods, Login;
      ok := NegotiateMethod();
      if ok {
        ok := CheckLogin();
      }
    }

    method ReadAddress(kind: byte, ghost command: byte) returns (a: Option<Inet>)
      modifies input
      ensures var q := AskedAddress(relay.lookup, command, kind, old(input.rest));
        if a.Some? then q == AskedPort(command, a.value, input.rest) else !q.Asks?
    {
      a := None;
      if kind == IPV4 {
        var raw := input.ReadExactly(4);
        if raw.Some? {
          a := Some(ByAddress(raw.value));
        }
      } else if kind == IPV6 {
        var raw := input.ReadExactly(16);
        if raw.Some? {
          a := Some(ByAddress(raw.value));
        }
      } else if kind == NAME {
        var name := input.ReadCounted();
        if name.Some? {
          a := relay.lookup(TlsClientHello.Ascii(name.value));
        }
      }
    }

    /** `readRequest`; None for an exception. */
    method ReadRequestFrom() returns (r: Option<Request>)
      modifies input
      ensures var q := ReadRequest(relay.lookup, old(input.rest));
        if q.Asks? then r == Some(q.r) && input.rest == q.rest else r == None
    {
      hide AskedAddress;
      var version := input.ReadByte();
      if version != Some(SOCKS_VERSION) {
        return None;
      }
      var command := input.ReadByte();
      var reserved := input.ReadByte();
      var kind := input.ReadByte();
      if command.None? || reserved.None? || kind.None? {
        return None;
      }
      ghost var h := old(input.rest);
      assert h[1..][1..][1..][1..] == h[4..] && h[1..][1..][1..][0] == h[3];
      var address := ReadAddress(kind.value, command.value);
      if address.None? {
        return None;
      }
      var high := input.ReadByte();
      var low := input.ReadByte();
      if high.None? || low.None? {
        return None;
      }
      var top: int := high.value;
      r := Some(Request.Request(command.value, address.value, top * 256 + low.value));
    }

    /** `writeReply` */
    method WriteReply(code: byte, bound: Inet, port: nat)
      requires Proper(bound) && port < 0x1_0000
      modifies `output
      ensures output == old(output) + EncodeReply(Reply(code, bound, port))
    {
      var rawAddress := bound.raw;
      var reply := new byte[4 + |rawAddress| + 2](_ => 0);
      reply[0] := SOCKS_VERSION;
      reply[1] := code;
      reply[2] := 0;
      reply[3] := if bound.Inet6? then IPV6 else IPV4;
      forall k | 0 <= k < |rawAddress| {
        reply[4 + k] := rawAddress[k];
      }
      var portOffset := 4 + |rawAddress|;
      reply[portOffset] := port / 256 % 256;
      reply[portOffset + 1] := port % 256;
      assert reply[..] == EncodeReply(Reply(code, bound, port));
      Write(reply[..]);
    }

    /** `handleClient`, up to the answer to the request. */
    method HandleClient()
      requires output == []
      requires forall r :: relay.serve(r).Some? ==>
        Proper(relay.serve(r).value.bound) && relay.serve(r).value.port < 0x1_0000
      modifies this, input
      ensures output == Out(relay, old(input.rest))
    {
      hide Negotiate, ReadRequest, EncodeReply;
      var ok := NegotiateSession();
      ghost var t := Negotiate(relay, old(input.rest));
      assert [] + t.out == t.out && t.out + [] == t.out;
      if !ok {
        return;
      }
      var request := ReadRequestFrom();
      if request.None? {
        return;
      }
      if request.value.command == COMMAND_CONNECT || request.value.command == COMMAND_UDP_ASSOCIATE {
        var reply := relay.serve(request.value);
        if reply.Some? {
          WriteReply(reply.value.code, reply.value.bound, reply.value.port);
        }
      } else {
        WriteReply(7, Inet4([0, 0, 0, 0]), 0);
      }
    }
  }

  const MAX_CLIENT_HELLO := 64 * 1024

  function Concat(chunks: seq<seq<byte>>): seq<byte> {
    if chunks == [] then [] else Concat(chunks[..|chunks| - 1]) + chunks[|chunks| - 1]
  }

  /** There is reason to read on: no answer yet, room in the buffer, and no empty read last. */
  predicate ReadsOn(chunks: seq<seq<byte>>) {
    && TlsClientHello.Parse(Concat(chunks)) == TlsClientHello.NeedMore && |Concat(chunks)| < MAX_CLIENT_HELLO
    && (chunks != [] ==> chunks[|chunks| - 1] != [])
  }

  /** Reading stopped at the first of these reads after which there was no reason to read on. */
  predicate StopsRight(chunks: seq<seq<byte>>) {
    !ReadsOn(chunks) && |Concat(chunks)| <= MAX_CLIENT_HELLO && forall k :: 0 <= k < |chunks| ==> ReadsOn(chunks[..k])
  }

  lemma ConcatMore(chunks: seq<seq<byte>>, read: seq<byte>)
    ensures Concat(chunks + [read]) == Concat(chunks) + read
  {
    assert (chunks + [read])[..|chunks|] == chunks;
  }

  lemma PrefixesMore(chunks: seq<seq<byte>>, read: seq<byte>)
    requires ReadsOn(chunks) && forall k :: 0 <= k < |chunks| ==> ReadsOn(chunks[..k])
    ensures forall k :: 0 <= k < |chunks + [read]| ==> ReadsOn((chunks + [read])[..k])
  {
    hide ReadsOn;
    assert chunks[..|chunks|] == chunks;
    forall k | 0 <= k < |chunks + [read]| ensures ReadsOn((chunks + [read])[..k]) {
      assert (chunks + [read])[..k] == chunks[..k];
    }
  }

  /** An answer at which reading stopped is the one for everything that arrives, however the bytes
      are cut into reads; with none, the input ran dry or the buffer is full. */
  lemma StopsSettled(chunks: seq<seq<byte>>, rest: seq<byte>)
    requires StopsRight(chunks)
    ensures var hello := Concat(chunks);
      if TlsClientHello.Parse(hello) == TlsClientHello.NeedMore then
        chunks != [] && (chunks[|chunks| - 1] == [] || |hello| == MAX_CLIENT_HELLO)
      else TlsClientHello.Parse(hello + rest) == TlsClientHello.Parse(hello)
  {
    if TlsClientHello.Parse(Concat(chunks)) != TlsClientHello.NeedMore {
      TlsClientHello.AnswerStays(Concat(chunks), rest);
    }
  }

  lemma ReadsOnIf(chunks: seq<seq<byte>>)
    ensures ReadsOn(chunks) <==>
      TlsClientHello.Parse(Concat(chunks)) == TlsClientHello.NeedMore && |Concat(chunks)| < MAX_CLIENT_HELLO &&
      (chunks == [] || chunks[|chunks| - 1] != [])
  {
  }

  /** `readClientHello`: `chunks` are the chunks it read. */
  method ReadClientHello(input: InputStream) returns (hello: seq<byte>, ghost chunks: seq<seq<byte>>)
    modifies input
    ensures input.chunks == old(input.chunks) + chunks && StopsRight(chunks)
    ensures hello == Concat(chunks) && old(input.rest) == hello + input.rest
  {
    hide ReadsOn, Concat, TlsClientHello.Parse, StopsRight;
    var buffer := new byte[MAX_CLIENT_HELLO](_ => 0);
    var used := 0;
    chunks := [];
    assert buffer[..0] == [] && [] + input.rest == input.rest && old(input.chunks) + [] == old(input.chunks);
    NothingRead();
    while used < buffer.Length
      invariant 0 <= used <= buffer.Length && old(input.rest) == buffer[..used] + input.rest
      invariant buffer[..used] == Concat(chunks) && input.chunks == old(input.chunks) + chunks
      invariant ReadsOn(chunks) <==> used < buffer.Length
      invariant forall k :: 0 <= k < |chunks| ==> ReadsOn(chunks[..k])
      invariant fresh(buffer)
    {
      var read := input.Read(buffer.Length - used);
      PrefixesMore(chunks, read);
      ConcatMore(chunks, read);
      ReadsOnIf(chunks + [read]);
      Associates(old(input.chunks), chunks, [read]);
      Associates(buffer[..used], read, input.rest);
      chunks := chunks + [read];
      if read == [] {
        break;
      }
      Store(buffer, used, read);
      used := used + |read|;
      var r := TlsClientHello.ParseBytes(buffer[..used]);
      if r != TlsClientHello.NeedMore {
        break;
      }
    }
    hello := buffer[..used];
    StopsIf(chunks);
  }

  lemma Associates<T>(a: seq<T>, b: seq<T>, c: seq<T>)
    ensures a + (b + c) == a + b + c
  {
  }

  lemma StopsIf(chunks: seq<seq<byte>>)
    requires !ReadsOn(chunks) && |Concat(chunks)| <= MAX_CLIENT_HELLO
    requires forall k :: 0 <= k < |chunks| ==> ReadsOn(chunks[..k])
    ensures StopsRight(chunks)
  {
    hide ReadsOn, Concat;
  }

  method Store(buffer: array<byte>, used: nat, read: seq<byte>)
    requires used + |read| <= buffer.Length
    modifies buffer
    ensures buffer[..used + |read|] == old(buffer[..used]) + read
  {
    forall k | 0 <= k < |read| {
      buffer[used + k] := read[k];
    }
  }

  lemma NothingRead()
    ensures ReadsOn([]) && Concat([]) == []
  {
  }
}
