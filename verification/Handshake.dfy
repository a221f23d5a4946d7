/**
 The SOCKS5 client handshake (sections 3, 4 and 6 of RFC 1928, section 2 of RFC 1929), one step
 at a time or all at once. `Standard` and `Pipelined` say how the two end against a given
 server; the class at the end is the client as the source has it.
 */
module Handshake {
  import opened Bytes

  const VERSION: byte := 5
  const AUTH_VERSION: byte := 1
  const NO_AUTH: byte := 0
  const USER_PASS: byte := 2
  const DENY: byte := 255
  const SUCCESS: byte := 0

  datatype Credentials = Credentials(user: seq<byte>, pass: seq<byte>)

  /** What a client is set up with: credentials if both parts are set, the command and address
      to ask for (None if the address is of no known type), and which bound addresses it takes. */
  datatype Client = Client(auth: Option<Credentials>, request: Option<seq<byte>>, takes: seq<byte> -> bool)

  /** A server by all it has written once it has read the given bytes and waits for more, or has
      closed. */
  type Server = seq<byte> -> seq<byte>

  datatype Ending = Ending(ok: bool, sent: seq<byte>)

  function Offered(c: Client): byte {
    if c.auth.None? then NO_AUTH else USER_PASS
  }

  function Methods(c: Client): seq<byte> {
    [VERSION, 1, Offered(c)]
  }

  /** A length that one byte can tell, and that much of the text. */
  function Counted(text: seq<byte>): seq<byte> {
    [|text| % 256] + text[..|text| % 256]
  }

  function Login(c: Client): seq<byte> {
    match c.auth
    case None => []
    case Some(a) => [AUTH_VERSION] + Counted(a.user) + Counted(a.pass)
  }

  /** Where the answer to the request stands: behind the choice of a method, and behind the
      answer to the login if that is what was chosen. */
  function GrantAt(out: seq<byte>): nat {
    if |out| >= 2 && out[1] == 2 then 4 else 2
  }

  /** The method chosen, if two bytes came and the version is right. */
  function Chosen(out: seq<byte>): Option<byte> {
    if |out| >= 2 && out[0] == VERSION then Some(out[1]) else None
  }

  predicate LoggedIn(out: seq<byte>) {
    |out| >= 4 && out[2] == AUTH_VERSION && out[3] == SUCCESS
  }

  /** How many bytes of address and port follow an address type; 0 for a type not taken. */
  function BoundLen(kind: byte): nat {
    if kind == 1 then 6 else if kind == 4 then 18 else 0
  }

  /** The response from offset `at` on is a success with an address that is taken. */
  predicate Granted(c: Client, out: seq<byte>, at: nat) {
    && |out| >= at + 4 && out[at] == VERSION && out[at + 1] == SUCCESS
    && BoundLen(out[at + 3]) != 0 && |out| >= at + 4 + BoundLen(out[at + 3])
    && c.takes(out[at + 3..at + 4 + BoundLen(out[at + 3])])
  }

  function AskFor(s: Server, c: Client, sent: seq<byte>, at: nat): Ending {
    match c.request
    case None => Ending(false, sent)
    case Some(r) => Ending(Granted(c, s(sent + r), at), sent + r)
  }

  function Standard(s: Server, c: Client): Ending {
    var m := Methods(c);
    var chosen := Chosen(s(m));
    if chosen == Some(USER_PASS) then
      var sent := m + Login(c);
      if !LoggedIn(s(sent)) then Ending(false, sent) else AskFor(s, c, sent, 4)
    else if chosen == Some(NO_AUTH) then AskFor(s, c, m, 2)
    else Ending(false, m)
  }

  function Pipelined(s: Server, c: Client): Ending {
    var first := Methods(c) + Login(c);
    match c.request
    case None => Ending(false, first)
    case Some(r) =>
      var sent := first + r;
      var out := s(sent);
      var chosen := Chosen(out);
      var ok :=
        if chosen == Some(USER_PASS) then LoggedIn(out) && Granted(c, out, 4)
        else chosen == Some(NO_AUTH) && Granted(c, out, 2);
      Ending(ok, sent)
  }

  // ---------------------------------------------------------------- pipelining preserves meaning

  /** What a server has written stays written. */
  ghost predicate Causal(s: Server) {
    forall h: seq<byte>, t: seq<byte> :: s(h) <= s(h + t)
  }

  /** The server answers a message as soon as it has read it, or never. */
  predicate Prompt(s: Server, c: Client)
    requires c.request.Some?
  {
    var out := s(Methods(c) + Login(c) + c.request.value);
    && (|out| >= 2 ==> |s(Methods(c))| >= 2)
    && (Chosen(out) == Some(USER_PASS) && |out| >= 4 ==> |s(Methods(c) + Login(c))| >= 4)
  }

  /** The server chooses what was offered, if anything. */
  predicate Chooses(s: Server, c: Client)
    requires c.request.Some?
  {
    var chosen := Chosen(s(Methods(c) + Login(c) + c.request.value));
    chosen == Some(USER_PASS) || chosen == Some(NO_AUTH) ==> chosen == Some(Offered(c))
  }

  lemma Prefixes(s: Server, a: seq<byte>, b: seq<byte>, d: seq<byte>)
    requires Causal(s)
    ensures s(a) <= s(a + b + d) && s(a + b) <= s(a + b + d)
  {
    assert a + b + d == a + (b + d);
  }

  /** Both handshakes succeed or both fail, and when they succeed they have sent the same. */
  predicate Alike(s: Server, c: Client) {
    && Standard(s, c).ok == Pipelined(s, c).ok
    && (Standard(s, c).ok ==> Standard(s, c).sent == Pipelined(s, c).sent)
  }

  /** Against a server that goes by the bytes it has read, answers at once and chooses only what
      was offered, both handshakes succeed or both fail, and they send the same. */
  lemma SameEnding(s: Server, c: Client)
    requires Causal(s) && (c.request.Some? ==> Prompt(s, c) && Chooses(s, c))
    ensures Alike(s, c)
  {
    if c.request.Some? {
      Prefixes(s, Methods(c), Login(c), c.request.value);
      assert c.auth.None? ==> Methods(c) + Login(c) == Methods(c);
    }
  }

  /** The server does not pass over a login that it was sent. */
  predicate HeedsLogin(s: Server, c: Client)
    requires c.request.Some?
  {
    Chosen(s(Methods(c) + Login(c) + c.request.value)) == Some(NO_AUTH) ==> Login(c) == []
  }

  /** Against a server that chooses what was offered, going one step at a time succeeds exactly
      where pipelining does and the server answers at once. */
  lemma StandardIffPrompt(s: Server, c: Client)
    requires Causal(s) && c.request.Some? && Chooses(s, c)
    ensures Standard(s, c).ok <==> Pipelined(s, c).ok && Prompt(s, c)
  {
    Prefixes(s, Methods(c), Login(c), c.request.value);
    LoginIff(c);
    assert Login(c) == [] ==> Methods(c) + Login(c) == Methods(c);
  }

  lemma LoginIff(c: Client)
    ensures Login(c) == [] <==> c.auth.None?
  {
  }

  /** Exactly when the two end alike: where the pipelined handshake succeeds, just if the server
      is prompt and does not pass over a login; where the standard one does, just if it does not
      pass over a login. Where both fail they end alike anyway. */
  lemma AlikeIff(s: Server, c: Client)
    requires Causal(s)
    ensures !Standard(s, c).ok && !Pipelined(s, c).ok ==> Alike(s, c)
    ensures Pipelined(s, c).ok ==> c.request.Some? && (Alike(s, c) <==> Prompt(s, c) && HeedsLogin(s, c))
    ensures Standard(s, c).ok ==> c.request.Some? && (Alike(s, c) <==> HeedsLogin(s, c))
  {
    if c.request.Some? {
      Prefixes(s, Methods(c), Login(c), c.request.value);
      assert Login(c) == [] ==> Methods(c) + Login(c) == Methods(c);
      assert Login(c) != [] ==> |Methods(c) + Login(c) + c.request.value| != |Methods(c) + c.request.value|;
    }
  }

  lemma HeadAndRest(out: seq<byte>, at: nat, n: nat)
    requires at + 1 + n <= |out|
    ensures out[at..at + 1 + n] == [out[at]] + out[at + 1..at + 1 + n]
  {
  }

  /** A CONNECT to 0.0.0.0:0, and the answer that it is done. */
  const CONNECT: seq<byte> := [5, 1, 0, 1, 0, 0, 0, 0, 0, 0]
  const DONE: seq<byte> := [5, 0, 0, 1, 0, 0, 0, 0, 0, 0]

  function Anonymous(): Client {
    Client(None, Some(CONNECT), _ => true)
  }

  function Named(): Client {
    Client(Some(Credentials([97], [98])), Some(CONNECT), _ => true)
  }

  /** A server that waits for all that a pipelined client sends before it writes anything. */
  function Waiting(h: seq<byte>): seq<byte> {
    if |h| < 13 then [] else [5, 0] + DONE
  }

  lemma ConnectLength()
    ensures |CONNECT| == 10
  {
  }

  /** Not prompt: the pipelined handshake succeeds, the standard one waits for ever. */
  lemma WaitingServer()
    ensures Causal(Waiting) && Chooses(Waiting, Anonymous()) && !Prompt(Waiting, Anonymous())
    ensures Pipelined(Waiting, Anonymous()).ok && !Standard(Waiting, Anonymous()).ok
  {
    var c := Anonymous();
    ConnectLength();
    assert |Methods(c) + Login(c) + CONNECT| == 13;
    assert Chosen([5, 0] + DONE) == Some(NO_AUTH) && Granted(c, [5, 0] + DONE, 2);
  }

  /** A server that passes over the offer of a login, and takes what comes next as a request. */
  function Careless(h: seq<byte>): seq<byte> {
    if |h| < 3 then []
    else if |h| < 13 then [5, 0]
    else if h[3] == VERSION then [5, 0] + DONE else [5, 0] + [5, 1, 0, 1, 0, 0, 0, 0, 0, 0]
  }

  lemma CarelessCausal()
    ensures Causal(Careless)
  {
    forall h: seq<byte>, t: seq<byte> ensures Careless(h) <= Careless(h + t) {
    }
  }

  /** Not what was offered: the standard client goes on without a login and succeeds, the
      pipelined one has sent its login already and fails. */
  lemma CarelessServer()
    ensures Causal(Careless) && Prompt(Careless, Named()) && !Chooses(Careless, Named())
    ensures Standard(Careless, Named()).ok && !Pipelined(Careless, Named()).ok
  {
    var c := Named();
    CarelessCausal();
    ConnectLength();
    assert |Login(c)| == 5 && Login(c)[0] == AUTH_VERSION && CONNECT[0] == VERSION;
    var all, direct := Methods(c) + Login(c) + CONNECT, Methods(c) + CONNECT;
    assert |all| == 18 && all[3] == AUTH_VERSION;
    assert |direct| == 13 && direct[3] == VERSION;
    assert Careless(Methods(c)) == [5, 0];
    assert Granted(c, [5, 0] + DONE, 2);
    hide Careless, Methods, Login;
  }

  // ---------------------------------------------------------------- the client in place

  class HevSocks5Client {
    const server: Server
    const setup: Client
    const isUdp: bool
    // the socket: what was written to it, and how much was read from it
    var sent: seq<byte>
    var taken: nat
    var upstream: Option<seq<byte>>
    var timeout: int

    constructor (server: Server, setup: Client, isUdp: bool)
      ensures this.server == server && this.setup == setup && this.isUdp == isUdp
      ensures sent == [] && taken == 0 && upstream == None
    {
      this.server, this.setup, this.isUdp := server, setup, isUdp;
      sent, taken, upstream, timeout := [], 0, None, -1;
    }

    /** The grant has been read at `at`: the upstream address is the kind byte and the six or
        eighteen bytes behind it, and that is all that was read. */
    ghost predicate BoundAt(at: nat)
      reads this
    {
      var out := server(sent);
      && |out| >= at + 4 && (out[at + 3] == 1 || out[at + 3] == 4)
      && var end := at + 4 + if out[at + 3] == 1 then 6 else 18;
      |out| >= end == taken && upstream == Some(out[at + 3..end])
    }

    method Send(data: seq<byte>)
      modifies `sent
      ensures sent == old(sent) + data
    {
      sent := sent + data;
    }

    /** Waits for all `n` bytes; None if the server never writes them. */
    method Recv(n: nat) returns (got: Option<seq<byte>>)
      modifies `taken
      ensures var out := server(sent); var at := old(taken);
        if |out| >= at + n then got == Some(out[at..at + n]) && taken == at + n else got == None
    {
      var out := server(sent);
      if |out| < taken + n {
        return None;
      }
      got := Some(out[taken..taken + n]);
      taken := taken + n;
    }

    method WriteAuthMethods()
      modifies `sent
      ensures sent == old(sent) + Methods(setup)
    {
      var method0 := if setup.auth.None? then NO_AUTH else USER_PASS;
      Send([VERSION, 1, method0]);
    }

    method WriteAuthCreds()
      modifies `sent
      ensures sent == old(sent) + Login(setup)
    {
      if setup.auth.None? {
        assert old(sent) + [] == old(sent);
        return;
      }
      var a := setup.auth.value;
      var ub: seq<byte> := [AUTH_VERSION, |a.user| % 256, |a.pass| % 256];
      var iov := ub[..2] + a.user[..ub[1]] + [ub[2]] + a.pass[..ub[2]];
      assert iov == Login(setup);
      Send(iov);
    }

    method WriteRequest() returns (ok: bool)
      modifies `sent
      ensures ok == setup.request.Some?
      ensures ok ==> sent == old(sent) + setup.request.value
      ensures !ok ==> sent == old(sent)
    {
      ok := setup.request.Some?;
      if ok {
        Send(setup.request.value);
      }
    }

    method ReadAuthMethod() returns (chosen: Option<byte>)
      requires taken == 0
      modifies `taken
      ensures chosen == Chosen(server(sent))
      ensures chosen.Some? ==> taken == 2
    {
      var auth := Recv(2);
      if auth.None? || auth.value[0] != VERSION {
        return None;
      }
      chosen := Some(auth.value[1]);
    }

    method ReadAuthCreds() returns (ok: bool)
      requires taken == 2
      modifies `taken
      ensures ok == LoggedIn(server(sent))
      ensures ok ==> taken == 4
    {
      var res := Recv(2);
      ok := res.Some? && res.value[0] == AUTH_VERSION && res.value[1] == SUCCESS;
    }

    method ReadResponse() returns (ok: bool)
      modifies `taken, `upstream
      ensures ok == Granted(setup, server(sent), old(taken))
      ensures ok ==> BoundAt(old(taken))
      ensures !ok ==> upstream == old(upstream)
    {
      var head := Recv(4);
      if head.None? || head.value[0] != VERSION || head.value[1] != SUCCESS {
        return false;
      }
      var kind := head.value[3];
      var addrlen := 0;
      if kind == 1 {
        addrlen := 6;
      } else if kind == 4 {
        addrlen := 18;
      } else {
        return false;
      }
      var rest := Recv(addrlen);
      if rest.None? {
        return false;
      }
      var addr := [kind] + rest.value;
      ghost var out, at := server(sent), old(taken);
      HeadAndRest(out, at + 3, addrlen);
      ok := setup.takes(addr);
      if ok {
        upstream := Some(addr);
      }
    }

    /** `hev_socks5_client_handshake_standard` */
    method HandshakeStandard() returns (ok: bool)
      requires sent == [] && taken == 0
      modifies `sent, `taken, `upstream
      ensures Ending(ok, sent) == Standard(server, setup)
      ensures ok ==> BoundAt(GrantAt(server(Methods(setup))))
      ensures !ok ==> upstream == old(upstream)
    {
      hide Granted, LoggedIn, Login, BoundAt;
      WriteAuthMethods();
      assert [] + Methods(setup) == Methods(setup);
      var chosen := ReadAuthMethod();
      if chosen.None? {
        return false;
      }
      if chosen.value == USER_PASS {
        WriteAuthCreds();
        ok := ReadAuthCreds();
        if !ok {
          return;
        }
      } else if chosen.value != NO_AUTH {
        return false;
      }
      ok := WriteRequest();
      if ok {
        ok := ReadResponse();
      }
    }

    /** `hev_socks5_client_handshake_pipeline` */
    method HandshakePipeline() returns (ok: bool)
      requires sent == [] && taken == 0
      modifies `sent, `taken, `upstream
      ensures Ending(ok, sent) == Pipelined(server, setup)
      ensures ok ==> BoundAt(GrantAt(server(sent)))
      ensures !ok ==> upstream == old(upstream)
    {
      hide Granted, LoggedIn, Login, BoundAt;
      WriteAuthMethods();
      assert [] + Methods(setup) == Methods(setup);
      WriteAuthCreds();
      ok := WriteRequest();
      if !ok {
        return;
      }
      var chosen := ReadAuthMethod();
      if chosen.None? {
        return false;
      }
      if chosen.value == USER_PASS {
        ok := ReadAuthCreds();
        if !ok {
          return;
        }
      } else if chosen.value != NO_AUTH {
        return false;
      }
      ok := ReadResponse();
    }

    /** `hev_socks5_client_handshake` */
    method Handshake(pipeline: bool, tcpTimeout: int, udpTimeout: int) returns (ok: bool)
      requires sent == [] && taken == 0
      modifies this
      ensures Ending(ok, sent) == if pipeline then Pipelined(server, setup) else Standard(server, setup)
      ensures timeout == if isUdp then udpTimeout else tcpTimeout
      ensures ok ==> BoundAt(GrantAt(server(if pipeline then sent else Methods(setup))))
      ensures !ok ==> upstream == old(upstream)
    {
      timeout := tcpTimeout;
      if pipeline {
        ok := HandshakePipeline();
      } else {
        ok := HandshakeStandard();
      }
      if isUdp {
        timeout := udpTimeout;
      }
    }
  }
}
